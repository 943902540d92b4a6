/** The line scanner of the IPC decoder: the completeness check and the key lookup. Strings are
    C strings: their text up to the terminating NUL, which reading past the end yields. Both
    loops are compared with a lexer that reads one character after the other. */
module JsonScanner {
  import opened Options

  const LINE_MAX := 8192
  const NUL := '\0'

  type CString = s: string | forall i :: 0 <= i < |s| ==> s[i] != NUL

  function At(s: string, i: nat): char {
    if i < |s| then s[i] else NUL
  }

  /** The white space of the C locale. */
  predicate IsSpace(c: char) {
    c == ' ' || 9 as char <= c <= 13 as char
  }

  function SkipWs(s: string, i: nat): (j: nat)
    ensures i <= j && (i <= |s| ==> j <= |s|)
    ensures !IsSpace(At(s, j))
    ensures forall k :: i <= k < j ==> IsSpace(At(s, k))
    decreases |s| - i
  {
    if i < |s| && IsSpace(s[i]) then SkipWs(s, i + 1) else i
  }

  // ---- The lexer ----

  /** Where a reader stands: inside a string or not, behind a backslash or not, how many braces
      are open, and whether the first object has been closed. */
  datatype Lex = Lex(inString: bool, escaped: bool, depth: nat, closed: bool)

  const START := Lex(false, false, 0, false)

  function Next(l: Lex, c: char): Lex {
    if l.closed then l
    else if l.inString then
      if l.escaped then l.(escaped := false)
      else if c == '\\' then l.(escaped := true)
      else if c == '"' then l.(inString := false)
      else l
    else
      match c
      case '"' => l.(inString := true)
      case '{' => l.(depth := l.depth + 1)
      case '}' => if l.depth == 0 then l else l.(depth := l.depth - 1, closed := l.depth == 1)
      case _ => l
  }

  /** A string token between its quotes. */
  datatype Token = Token(start: nat, end: nat)

  /** The string tokens directly inside the first object, from position c on, `start` being
      where the current string began. */
  function RootTokens(s: string, c: nat, l: Lex, start: nat): seq<Token>
    decreases |s| - c
  {
    if c >= |s| || l.closed then []
    else
      var rest := RootTokens(s, c + 1, Next(l, s[c]), if l.inString then start else c + 1);
      if l.inString && !l.escaped && s[c] == '"' && l.depth == 1 then [Token(start, c)] + rest else rest
  }

  // ---- Key lookup ----

  predicate Matches(s: string, t: Token, key: string) {
    t.start <= t.end <= |s| && s[t.start..t.end] == key && At(s, SkipWs(s, t.end + 1)) == ':'
  }

  predicate HasBackslash(s: string, t: Token) {
    exists k :: t.start <= k < t.end && At(s, k) == '\\'
  }

  /** The value behind the first token that is the key and has a colon behind it; nothing if a
      token up to there holds a backslash. */
  function Lookup(s: string, tokens: seq<Token>, key: string): Option<nat> {
    if tokens == [] || HasBackslash(s, tokens[0]) then None
    else if Matches(s, tokens[0], key) then Some(SkipWs(s, SkipWs(s, tokens[0].end + 1) + 1))
    else Lookup(s, tokens[1..], key)
  }

  /** Where a key of the object would end: the next quote, backslash or the end. */
  function KeyEnd(s: string, i: nat): (e: nat)
    ensures i <= e && (i <= |s| ==> e <= |s|)
    ensures e < |s| ==> s[e] == '"' || s[e] == '\\'
    decreases |s| - i
  {
    if i < |s| && s[i] != '"' && s[i] != '\\' then KeyEnd(s, i + 1) else i
  }

  /** The scan from position c. A string directly inside the object is skipped in one jump, any
      other one character by character. */
  function Scan(s: string, key: string, c: nat, l: Lex): (v: Option<nat>)
    ensures v.Some? ==> c <= v.value <= |s|
    decreases |s| - c
  {
    if c >= |s| || l.closed then None
    else if l.inString || s[c] != '"' || l.depth != 1 then Scan(s, key, c + 1, Next(l, s[c]))
    else ScanString(s, key, c, l)
  }

  function ScanString(s: string, key: string, c: nat, l: Lex): (v: Option<nat>)
    requires c < |s|
    ensures v.Some? ==> c <= v.value <= |s|
    decreases |s| - c, 0
  {
    var end := KeyEnd(s, c + 1);
    if At(s, end) != '"' then None
    else
      var after := SkipWs(s, end + 1);
      if At(s, after) == ':' && s[c + 1..end] == key then Some(SkipWs(s, after + 1))
      else Scan(s, key, end + 1, l)
  }

  function FindKeyValue(s: string, key: string): (v: Option<nat>)
    ensures v.Some? ==> v.value <= |s|
  {
    Scan(s, key, 0, START)
  }

  /** Plain characters of a string change nothing. */
  lemma {:induction false} TokensSkipPlain(s: string, c: nat, l: Lex, start: nat)
    requires c <= |s| && l.inString && !l.escaped && !l.closed
    ensures RootTokens(s, c, l, start) == RootTokens(s, KeyEnd(s, c), l, start)
    ensures forall k :: c <= k < KeyEnd(s, c) ==> At(s, k) != '\\'
    decreases |s| - c
  {
    if c < |s| && s[c] != '"' && s[c] != '\\' {
      TokensSkipPlain(s, c + 1, l, start);
    }
  }

  /** The first token found from inside a string directly in the object is that string. */
  lemma {:induction false} FirstTokenIsOpen(s: string, c: nat, l: Lex, start: nat)
    requires c <= |s| && l.inString && l.depth == 1 && !l.closed
    ensures var ts := RootTokens(s, c, l, start); ts != [] ==> ts[0].start == start && c <= ts[0].end
    decreases |s| - c
  {
    if c < |s| && !(!l.escaped && s[c] == '"') {
      FirstTokenIsOpen(s, c + 1, Next(l, s[c]), start);
    }
  }

  /** A string that begins directly inside the object at c: its token comes first, and holds a
      backslash unless it ends where the scan's jump does. */
  lemma RootStringTokens(s: string, c: nat, l: Lex, start: nat)
    requires c < |s| && s[c] == '"' && !l.inString && !l.escaped && l.depth == 1 && !l.closed
    ensures var end, ts := KeyEnd(s, c + 1), RootTokens(s, c, l, start);
            if At(s, end) == '"' then
              ts == [Token(c + 1, end)] + RootTokens(s, end + 1, l, c + 1) && !HasBackslash(s, ts[0])
            else ts != [] ==> HasBackslash(s, ts[0])
  {
    var inside := Next(l, s[c]);
    var end := KeyEnd(s, c + 1);
    TokensSkipPlain(s, c + 1, inside, c + 1);
    if end < |s| && s[end] == '\\' {
      FirstTokenIsOpen(s, end + 1, Next(inside, s[end]), c + 1);
    }
  }

  lemma {:induction false} ScanIsLookup(s: string, key: string, c: nat, l: Lex, start: nat)
    requires c <= |s|
    requires if l.inString then l.depth != 1 else !l.escaped
    ensures Scan(s, key, c, l) == Lookup(s, RootTokens(s, c, l, start), key)
    decreases |s| - c
  {
    if c >= |s| || l.closed {
    } else if l.inString || s[c] != '"' || l.depth != 1 {
      ScanIsLookup(s, key, c + 1, Next(l, s[c]), if l.inString then start else c + 1);
    } else {
      var end := KeyEnd(s, c + 1);
      if At(s, end) == '"' {
        ScanIsLookup(s, key, end + 1, l, c + 1);
      }
      RootStringTokens(s, c, l, start);
      JumpIsLookup(s, key, c, l, RootTokens(s, c, l, start), RootTokens(s, end + 1, l, c + 1));
    }
  }

  /** The jump over a string takes one token off the list, given the rest agrees. */
  lemma JumpIsLookup(s: string, key: string, c: nat, l: Lex, ts: seq<Token>, rest: seq<Token>)
    requires c < |s| && s[c] == '"' && !l.inString && l.depth == 1 && !l.closed
    requires var end := KeyEnd(s, c + 1);
             if At(s, end) == '"' then
               && ts == [Token(c + 1, end)] + rest && !HasBackslash(s, Token(c + 1, end))
               && Scan(s, key, end + 1, l) == Lookup(s, rest, key)
             else ts != [] ==> HasBackslash(s, ts[0])
    ensures Scan(s, key, c, l) == Lookup(s, ts, key)
  {
    var end := KeyEnd(s, c + 1);
    if At(s, end) == '"' {
      ScanAt(s, key, c, end, l);
      LookupFirstToken(s, c, end, rest, key);
    }
  }

  /** A string in the object that begins at c and ends at `end`. */
  predicate StringAt(s: string, c: nat, end: nat, l: Lex) {
    c < end < |s| && s[c] == s[end] == '"' && KeyEnd(s, c + 1) == end && !l.inString && !l.closed && l.depth == 1
  }

  predicate KeyAt(s: string, c: nat, end: nat, key: string) {
    c < end <= |s| && At(s, SkipWs(s, end + 1)) == ':' && s[c + 1..end] == key
  }

  function ValueOf(s: string, t: Token): nat {
    SkipWs(s, SkipWs(s, t.end + 1) + 1)
  }

  lemma ScanAt(s: string, key: string, c: nat, end: nat, l: Lex)
    requires StringAt(s, c, end, l)
    ensures Scan(s, key, c, l) ==
            if KeyAt(s, c, end, key) then Some(ValueOf(s, Token(c + 1, end))) else Scan(s, key, end + 1, l)
  {
    assert Scan(s, key, c, l) == ScanString(s, key, c, l);
  }

  lemma LookupFirstToken(s: string, c: nat, end: nat, rest: seq<Token>, key: string)
    requires c < end <= |s| && !HasBackslash(s, Token(c + 1, end))
    ensures Lookup(s, [Token(c + 1, end)] + rest, key) ==
            if KeyAt(s, c, end, key) then Some(ValueOf(s, Token(c + 1, end))) else Lookup(s, rest, key)
  {
    assert ([Token(c + 1, end)] + rest)[1..] == rest;
  }

  // ---- What a root token is ----

  function LexAt(s: string, i: nat): Lex
    requires i <= |s|
  {
    if i == 0 then START else Next(LexAt(s, i - 1), s[i - 1])
  }

  /** The string whose text starts at `start` is open from there to c. */
  predicate Open(s: string, start: nat, c: nat) {
    && 1 <= start <= c <= |s| && s[start - 1] == '"' && !LexAt(s, start - 1).inString
    && LexAt(s, start - 1).depth == LexAt(s, c).depth
    && forall p :: start <= p <= c ==> LexAt(s, p).inString
  }

  /** A string that opens outside every other string, directly inside the first object, and ends
      at the first quote without a backslash before it. */
  predicate IsRootToken(s: string, t: Token) {
    && t.end < |s| && Open(s, t.start, t.end)
    && LexAt(s, t.end).depth == 1 && !LexAt(s, t.end).closed && !LexAt(s, t.end).escaped && s[t.end] == '"'
  }

  lemma {:induction false} ClosedStays(s: string, i: nat, j: nat)
    requires i <= j <= |s| && LexAt(s, i).closed
    ensures LexAt(s, j).closed
    decreases j
  {
    if i < j {
      ClosedStays(s, i, j - 1);
    }
  }

  lemma OneOpening(s: string, a: nat, b: nat, c: nat)
    requires Open(s, a, c) && Open(s, b, c)
    ensures a == b
  {
  }

  lemma OpenNext(s: string, start: nat, c: nat)
    requires c < |s| && (LexAt(s, c).inString ==> Open(s, start, c)) && LexAt(s, c + 1).inString
    ensures Open(s, if LexAt(s, c).inString then start else c + 1, c + 1)
  {
  }

  /** The lexer lists the root tokens, all of them and nothing else. */
  lemma {:induction false} TokensAreTheRootTokens(s: string, c: nat, start: nat, t: Token)
    requires c <= |s| && (LexAt(s, c).inString ==> Open(s, start, c))
    ensures t in RootTokens(s, c, LexAt(s, c), start) <==> IsRootToken(s, t) && c <= t.end
    decreases |s| - c
  {
    if c < |s| && !LexAt(s, c).closed {
      assert LexAt(s, c + 1) == Next(LexAt(s, c), s[c]);
      var start' := if LexAt(s, c).inString then start else c + 1;
      if LexAt(s, c + 1).inString {
        OpenNext(s, start, c);
      }
      TokensAreTheRootTokens(s, c + 1, start', t);
      if IsRootToken(s, t) && t.end == c {
        assert LexAt(s, c).inString;
        OneOpening(s, t.start, start, c);
      }
    } else if IsRootToken(s, t) && c <= t.end {
      ClosedStays(s, c, t.end);
    }
  }

  lemma {:induction false} TokensInOrder(s: string, c: nat, l: Lex, start: nat)
    requires l.inString ==> start <= c
    ensures var ts := RootTokens(s, c, l, start);
            && (forall i :: 0 <= i < |ts| ==> c <= ts[i].end)
            && (forall i, j :: 0 <= i < j < |ts| ==> ts[i].end < ts[j].start)
            && (ts != [] ==> ts[0].start >= if l.inString then start else c + 1)
    decreases |s| - c
  {
    if c < |s| && !l.closed {
      var start' := if l.inString then start else c + 1;
      TokensInOrder(s, c + 1, Next(l, s[c]), start');
    }
  }

  /** The k-th token is the key, no earlier one is, and none up to it holds a backslash. */
  predicate FirstMatch(s: string, ts: seq<Token>, key: string, k: nat)
    requires k < |ts|
  {
    && Matches(s, ts[k], key) && !HasBackslash(s, ts[k])
    && forall i :: 0 <= i < k ==> !Matches(s, ts[i], key) && !HasBackslash(s, ts[i])
  }

  /** Some token is the first match, and v is the value behind it. */
  predicate Leads(s: string, ts: seq<Token>, key: string, v: nat) {
    exists k :: 0 <= k < |ts| && FirstMatch(s, ts, key, k) && ValueOf(s, ts[k]) == v
  }

  lemma FirstMatchRest(s: string, ts: seq<Token>, key: string, k: nat)
    requires 0 < k < |ts| && !Matches(s, ts[0], key) && !HasBackslash(s, ts[0])
    ensures FirstMatch(s, ts, key, k) <==> FirstMatch(s, ts[1..], key, k - 1)
  {
    var rest := ts[1..];
    assert rest[k - 1] == ts[k];
    if FirstMatch(s, rest, key, k - 1) {
      forall i | 0 <= i < k ensures !Matches(s, ts[i], key) && !HasBackslash(s, ts[i]) {
        assert i > 0 ==> ts[i] == rest[i - 1];
      }
    }
  }

  lemma LeadsRest(s: string, ts: seq<Token>, key: string, v: nat)
    requires ts != [] && !Matches(s, ts[0], key) && !HasBackslash(s, ts[0])
    ensures Leads(s, ts, key, v) <==> Leads(s, ts[1..], key, v)
  {
    if Leads(s, ts, key, v) {
      var k :| 0 <= k < |ts| && FirstMatch(s, ts, key, k) && ValueOf(s, ts[k]) == v;
      FirstMatchRest(s, ts, key, k);
      assert ts[1..][k - 1] == ts[k];
    }
    if Leads(s, ts[1..], key, v) {
      var k :| 0 <= k < |ts[1..]| && FirstMatch(s, ts[1..], key, k) && ValueOf(s, ts[1..][k]) == v;
      FirstMatchRest(s, ts, key, k + 1);
    }
  }

  /** The lookup in a list of tokens returns the value behind the first match, and nothing else. */
  lemma {:induction false} LookupFirst(s: string, ts: seq<Token>, key: string, v: nat)
    ensures Lookup(s, ts, key) == Some(v) <==> Leads(s, ts, key, v)
    decreases |ts|
  {
    if ts != [] && !HasBackslash(s, ts[0]) {
      if Matches(s, ts[0], key) {
        assert FirstMatch(s, ts, key, 0);
      } else {
        LookupFirst(s, ts[1..], key, v);
        LeadsRest(s, ts, key, v);
      }
    }
  }

  /** A root token that is the key and has a colon behind it, with no earlier one like it, and no
      backslash in it or in an earlier root token. */
  ghost predicate FirstKey(s: string, key: string, t: Token) {
    && IsRootToken(s, t) && Matches(s, t, key) && !HasBackslash(s, t)
    && forall u :: IsRootToken(s, u) && u.end < t.start ==> !Matches(s, u, key) && !HasBackslash(s, u)
  }

  lemma FirstIsFirst(s: string, key: string, k: nat)
    requires k < |RootTokens(s, 0, START, 0)|
    ensures var ts := RootTokens(s, 0, START, 0); FirstMatch(s, ts, key, k) <==> FirstKey(s, key, ts[k])
  {
    var ts := RootTokens(s, 0, START, 0);
    TokensInOrder(s, 0, START, 0);
    forall t ensures t in ts <==> IsRootToken(s, t) {
      TokensAreTheRootTokens(s, 0, 0, t);
    }
    assert ts[k] in ts;
    forall u | IsRootToken(s, u) && u.end < ts[k].start ensures exists i :: 0 <= i < k && ts[i] == u {
      var i :| 0 <= i < |ts| && ts[i] == u;
      assert i < k;
    }
    forall i | 0 <= i < k ensures IsRootToken(s, ts[i]) && ts[i].end < ts[k].start {
      assert ts[i] in ts;
    }
  }

  lemma FirstMatchIsKey(s: string, ts: seq<Token>, key: string, v: nat)
    requires ts == RootTokens(s, 0, START, 0) && Leads(s, ts, key, v)
    ensures exists t :: FirstKey(s, key, t) && v == ValueOf(s, t)
  {
    var k :| 0 <= k < |ts| && FirstMatch(s, ts, key, k) && ValueOf(s, ts[k]) == v;
    FirstIsFirst(s, key, k);
  }

  lemma FirstKeyIsMatch(s: string, ts: seq<Token>, key: string, t: Token)
    requires ts == RootTokens(s, 0, START, 0) && FirstKey(s, key, t)
    ensures Leads(s, ts, key, ValueOf(s, t))
  {
    TokensAreTheRootTokens(s, 0, 0, t);
    var k :| 0 <= k < |ts| && ts[k] == t;
    FirstIsFirst(s, key, k);
  }

  /** On every text and for every key: the lookup returns v exactly if v is the value behind the
      first root token that equals the key and is followed by a colon, with no backslash in a
      root token up to there. So it never answers with a nested or quoted occurrence. */
  lemma FindIff(s: string, key: string, v: nat)
    ensures FindKeyValue(s, key) == Some(v) <==> exists t :: FirstKey(s, key, t) && v == ValueOf(s, t)
  {
    var ts := RootTokens(s, 0, START, 0);
    ScanIsLookup(s, key, 0, START, 0);
    LookupFirst(s, ts, key, v);
    if Leads(s, ts, key, v) {
      FirstMatchIsKey(s, ts, key, v);
    }
    if t :| FirstKey(s, key, t) && v == ValueOf(s, t) {
      FirstKeyIsMatch(s, ts, key, t);
    }
  }

  // ---- Completeness ----

  /** The check from position c on, `last` being the last significant character. */
  function Check(s: string, c: nat, l: Lex, last: char, length: nat): bool
    decreases |s| - c
  {
    if c >= |s| || length >= LINE_MAX then false
    else
      var next := Next(l, s[c]);
      if l.inString then Check(s, c + 1, next, last, length + 1)
      else if s[c] == '}' then
        last != ',' && if next.closed then At(s, SkipWs(s, c + 1)) == NUL else Check(s, c + 1, next, '}', length + 1)
      else if s[c] == ',' then
        last != ',' && last != '{' && Check(s, c + 1, next, ',', length + 1)
      else Check(s, c + 1, next, if IsSpace(s[c]) then last else s[c], length + 1)
  }

  predicate IsComplete(s: string) {
    var begin := SkipWs(s, 0);
    At(s, begin) == '{' && Check(s, begin, START, NUL, 0)
  }

  /** The last character before i that is not white space. */
  function Before(s: string, i: nat): char
    requires i <= |s|
  {
    if i == 0 then NUL else if IsSpace(s[i - 1]) then Before(s, i - 1) else s[i - 1]
  }

  /** Outside strings no comma follows a comma or an opening brace or comes before a closing one. */
  predicate CommaOk(s: string, i: nat)
    requires i < |s|
  {
    !LexAt(s, i).inString ==>
      && (s[i] == ',' ==> Before(s, i) != ',' && Before(s, i) != '{')
      && (s[i] == '}' ==> Before(s, i) != ',')
  }

  /** The object begun at `begin` ends at e, within the length limit and with nothing but white
      space behind it, and the commas from c on are well placed. */
  predicate EndsWell(s: string, begin: nat, c: nat, e: nat) {
    && begin <= e < |s| && c <= e
    && !LexAt(s, e).closed && LexAt(s, e + 1).closed
    && e - begin < 8192
    && SkipWs(s, e + 1) == |s|
    && forall i :: c <= i <= e ==> CommaOk(s, i)
  }

  lemma EndsWellStep(s: string, begin: nat, c: nat, e: nat)
    requires c < |s| && begin <= c && !LexAt(s, c + 1).closed
    ensures EndsWell(s, begin, c, e) <==> CommaOk(s, c) && EndsWell(s, begin, c + 1, e)
  {
    if EndsWell(s, begin, c, e) {
      assert e != c;
      assert CommaOk(s, c);
    }
  }

  /** What the check knows when it gets to c. */
  predicate Reached(s: CString, begin: nat, c: nat, last: char) {
    && begin <= c <= |s| && !LexAt(s, c).closed
    && (c == begin ==> c < |s| && s[c] == '{' && LexAt(s, c) == START) && (c > begin ==> LexAt(s, c).depth > 0)
    && last == (if LexAt(s, c).inString then '"' else Before(s, c))
  }

  lemma NextReached(s: CString, begin: nat, c: nat, last: char)
    requires Reached(s, begin, c, last) && c < |s| && !LexAt(s, c + 1).closed
    ensures Reached(s, begin, c + 1, if !LexAt(s, c).inString && !IsSpace(s[c]) then s[c] else last)
  {
  }

  lemma {:induction false} CheckIff(s: CString, begin: nat, c: nat, last: char)
    requires Reached(s, begin, c, last)
    ensures Check(s, c, LexAt(s, c), last, c - begin) <==> exists e :: EndsWell(s, begin, c, e)
    decreases |s| - c
  {
    if c < |s| && c - begin < LINE_MAX {
      assert LexAt(s, c + 1) == Next(LexAt(s, c), s[c]);
      if LexAt(s, c + 1).closed {
        LastBrace(s, begin, c, last);
      } else {
        NextReached(s, begin, c, last);
        CheckIff(s, begin, c + 1, if !LexAt(s, c).inString && !IsSpace(s[c]) then s[c] else last);
        ExistsStep(s, begin, c, c + 1);
      }
    }
  }

  lemma ExistsStep(s: string, begin: nat, c: nat, next: nat)
    requires c < |s| && begin <= c && next == c + 1 && !LexAt(s, next).closed
    ensures (exists e :: EndsWell(s, begin, c, e)) <==> CommaOk(s, c) && exists e :: EndsWell(s, begin, next, e)
  {
    if e :| EndsWell(s, begin, c, e) {
      EndsWellStep(s, begin, c, e);
    }
    if e :| EndsWell(s, begin, next, e) {
      EndsWellStep(s, begin, c, e);
    }
  }

  /** At the brace that closes the object. */
  lemma LastBrace(s: CString, begin: nat, c: nat, last: char)
    requires Reached(s, begin, c, last) && c < |s| && LexAt(s, c + 1).closed && c - begin < LINE_MAX
    ensures Check(s, c, LexAt(s, c), last, c - begin) <==> exists e :: EndsWell(s, begin, c, e)
  {
    var j := SkipWs(s, c + 1);
    assert At(s, j) == NUL <==> j == |s|;
    if last != ',' && j == |s| {
      assert EndsWell(s, begin, c, c);
    }
    if e :| EndsWell(s, begin, c, e) {
      if c < e {
        ClosedStays(s, c + 1, e);
      }
      assert CommaOk(s, c);
    }
  }

  lemma {:induction false} SpacesAreIgnored(s: string, i: nat)
    requires i <= SkipWs(s, 0) && i <= |s|
    ensures LexAt(s, i) == START && Before(s, i) == NUL
  {
    if i > 0 {
      SpacesAreIgnored(s, i - 1);
      assert IsSpace(At(s, i - 1));
    }
  }

  /** A line is complete exactly if its first significant character opens an object that is
      closed within 8192 characters, with only white space behind it and well-placed commas. */
  lemma CompleteIff(s: CString)
    ensures IsComplete(s) <==>
              At(s, SkipWs(s, 0)) == '{' && exists e :: EndsWell(s, SkipWs(s, 0), SkipWs(s, 0), e)
  {
    var begin := SkipWs(s, 0);
    if At(s, begin) == '{' {
      SpacesAreIgnored(s, begin);
      CheckIff(s, begin, begin, NUL);
    }
  }

  // ---- The loops ----

  method SkipSpace(s: string, i: nat) returns (j: nat)
    ensures j == SkipWs(s, i)
  {
    j := i;
    while j < |s| && IsSpace(s[j])
      invariant i <= j && SkipWs(s, j) == SkipWs(s, i)
    {
      j := j + 1;
    }
  }

  method FindKeyEnd(s: string, i: nat) returns (e: nat)
    ensures e == KeyEnd(s, i)
  {
    e := i;
    while e < |s| && s[e] != '"' && s[e] != '\\'
      invariant i <= e && KeyEnd(s, e) == KeyEnd(s, i)
    {
      e := e + 1;
    }
  }

  /** A string directly inside the object: the answer if it decides the search, and its end. */
  method TryKey(s: string, key: string, cursor: nat, ghost l: Lex) returns (end: nat, done: bool, v: Option<nat>)
    requires cursor < |s| && s[cursor] == '"' && !l.inString && !l.closed && l.depth == 1
    ensures cursor < end <= |s|
    ensures Scan(s, key, cursor, l) == if done then v else Scan(s, key, end + 1, l)
    ensures !done ==> end < |s|
  {
    end := FindKeyEnd(s, cursor + 1);
    if At(s, end) != '"' {
      return end, true, None;
    }
    var after := SkipSpace(s, end + 1);
    if At(s, after) == ':' && s[cursor + 1..end] == key {
      var value := SkipSpace(s, after + 1);
      return end, true, Some(value);
    }
    return end, false, None;
  }

  method FindKey(s: string, key: string) returns (v: Option<nat>)
    ensures v == FindKeyValue(s, key)
  {
    var inString, escaped, sawRoot := false, false, false;
    var depth: nat, cursor: nat := 0, 0;
    while cursor < |s|
      invariant cursor <= |s| && (depth > 0 ==> sawRoot) && (sawRoot ==> depth > 0)
      invariant Scan(s, key, cursor, Lex(inString, escaped, depth, false)) == FindKeyValue(s, key)
    {
      var c := s[cursor];
      if inString {
        if escaped {
          escaped := false;
        } else if c == '\\' {
          escaped := true;
        } else if c == '"' {
          inString := false;
        }
      } else if c == '{' {
        sawRoot := true;
        depth := depth + 1;
      } else if c == '}' {
        if depth > 0 {
          depth := depth - 1;
        }
        if sawRoot && depth == 0 {
          break;
        }
      } else if c == '"' && depth != 1 {
        inString := true;
      } else if c == '"' {
        var end, done, value := TryKey(s, key, cursor, Lex(inString, escaped, depth, false));
        if done {
          return value;
        }
        cursor := end;
      }
      cursor := cursor + 1;
    }
    return None;
  }

  method IsCompleteObject(s: string) returns (complete: bool)
    ensures complete == IsComplete(s)
  {
    var cursor := SkipSpace(s, 0);
    if At(s, cursor) != '{' {
      return false;
    }
    var inString, escaped, last := false, false, NUL;
    var depth: nat, length: nat := 0, 0;
    while cursor < |s|
      invariant length > 0 ==> depth > 0
      invariant length == 0 ==> !inString && At(s, cursor) == '{'
      invariant Check(s, cursor, Lex(inString, escaped, depth, false), last, length) == IsComplete(s)
    {
      if length >= LINE_MAX {
        return false;
      }
      var c := s[cursor];
      length := length + 1;
      if inString {
        if escaped {
          escaped := false;
        } else if c == '\\' {
          escaped := true;
        } else if c == '"' {
          inString := false;
        }
      } else if c == '"' {
        inString, last := true, '"';
      } else if c == '{' {
        depth, last := depth + 1, '{';
      } else if c == '}' {
        if last == ',' {
          return false;
        }
        depth := depth - 1;
        if depth == 0 {
          var rest := SkipSpace(s, cursor + 1);
          return At(s, rest) == NUL;
        }
        last := '}';
      } else if c == ',' {
        if last == ',' || last == '{' {
          return false;
        }
        last := ',';
      } else if !IsSpace(c) {
        last := c;
      }
      cursor := cursor + 1;
    }
    return false;
  }
}
