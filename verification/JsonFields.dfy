/** Texts made of fields, as the printers of the protocol write them, and what the scanner finds
    in them: every such text is complete, and every key leads to its own value. */
module JsonFields {
  import opened Options
  import opened JsonScanner

  datatype Value = Number(text: string) | Text(text: string) | Nested(fields: seq<Field>)
  datatype Field = Field(key: string, value: Value)

  function Show(v: Value): (t: string)
    ensures t != [] || v.Number?
    decreases v
  {
    match v
    case Number(text) => text
    case Text(text) => "\"" + text + "\""
    case Nested(fields) => "{" + Members(fields) + "}"
  }

  function Members(fields: seq<Field>): string
    decreases fields
  {
    if fields == [] then [] else Quoted(fields[0].key) + Shown(fields)
  }

  /** The first field's value and what follows it. */
  function Shown(fields: seq<Field>): string
    requires fields != []
    decreases fields, 1
  {
    Show(fields[0].value) + Tail(fields)
  }

  function Tail(fields: seq<Field>): string
    requires fields != []
    decreases fields, 0
  {
    if |fields| == 1 then [] else "," + Members(fields[1..])
  }

  function Quoted(key: string): string {
    "\"" + key + "\":"
  }

  predicate Plain(t: string) {
    forall i :: 0 <= i < |t| ==> t[i] != '"' && t[i] != '\\'
  }

  predicate NumberChar(c: char) {
    c == '-' || '0' <= c <= '9'
  }

  predicate WellFormed(v: Value)
    decreases v
  {
    match v
    case Number(text) => text != [] && forall i :: 0 <= i < |text| ==> NumberChar(text[i])
    case Text(text) => Plain(text)
    case Nested(fields) => forall i :: 0 <= i < |fields| ==> Plain(fields[i].key) && WellFormed(fields[i].value)
  }

  predicate AllWellFormed(fields: seq<Field>) {
    forall i :: 0 <= i < |fields| ==> Plain(fields[i].key) && WellFormed(fields[i].value)
  }

  /** The text of a string with escapes: every backslash has a character behind it, and there is no
      quote without a backslash before it. */
  predicate Sealed(t: string)
    decreases |t|
  {
    t == [] ||
    if t[0] == '\\' then |t| >= 2 && Sealed(t[2..]) else t[0] != '"' && Sealed(t[1..])
  }

  /** Like well-formed, with escapes in the strings. */
  predicate Sound(v: Value)
    decreases v
  {
    match v
    case Number(text) => text != [] && forall i :: 0 <= i < |text| ==> NumberChar(text[i])
    case Text(text) => Sealed(text)
    case Nested(fields) => forall i :: 0 <= i < |fields| ==> Sealed(fields[i].key) && Sound(fields[i].value)
  }

  predicate AllSound(fields: seq<Field>) {
    forall i :: 0 <= i < |fields| ==> Sealed(fields[i].key) && Sound(fields[i].value)
  }

  lemma RestSound(fields: seq<Field>)
    requires fields != [] && AllSound(fields)
    ensures AllSound(fields[1..])
  {
  }

  /** No escapes in the object's own keys up to field i and in its own strings before it. */
  predicate TopPlain(fields: seq<Field>, i: nat)
    requires i < |fields|
  {
    forall j :: 0 <= j <= i ==>
      Plain(fields[j].key) && (j < i && fields[j].value.Text? ==> Plain(fields[j].value.text))
  }

  lemma {:induction false} PlainIsSealed(t: string)
    requires Plain(t)
    ensures Sealed(t)
    decreases |t|
  {
    if t != [] {
      PlainIsSealed(t[1..]);
    }
  }

  lemma {:induction false} WellFormedIsSound(v: Value)
    requires WellFormed(v)
    ensures Sound(v)
    decreases v
  {
    match v
    case Number(_) =>
    case Text(t) => PlainIsSealed(t);
    case Nested(fields) =>
      forall i | 0 <= i < |fields| ensures Sealed(fields[i].key) && Sound(fields[i].value) {
        PlainIsSealed(fields[i].key);
        WellFormedIsSound(fields[i].value);
      }
  }

  lemma AllWellFormedIsSound(fields: seq<Field>)
    requires AllWellFormed(fields)
    ensures AllSound(fields)
  {
    forall i | 0 <= i < |fields| ensures Sealed(fields[i].key) && Sound(fields[i].value) {
      PlainIsSealed(fields[i].key);
      WellFormedIsSound(fields[i].value);
    }
  }

  lemma Assoc(a: string, b: string, c: string)
    ensures (a + b) + c == a + (b + c)
  {
  }

  /** A list of members, cut behind its first key, its first value and its first comma. */
  lemma MembersSplit(fields: seq<Field>, rest: string)
    requires fields != []
    ensures Members(fields) + rest == Quoted(fields[0].key) + (Shown(fields) + rest)
    ensures Shown(fields) + rest == Show(fields[0].value) + (Tail(fields) + rest)
    ensures Tail(fields) + rest == if |fields| == 1 then rest else [','] + (Members(fields[1..]) + rest)
  {
    Assoc(Quoted(fields[0].key), Shown(fields), rest);
    Assoc(Show(fields[0].value), Tail(fields), rest);
    if |fields| == 1 {
      assert Tail(fields) + rest == rest;
    } else {
      Assoc([','], Members(fields[1..]), rest);
    }
  }

  // ---- Lookup in what is left of a text ----

  function Suffix(s: string, v: Option<nat>): Option<string>
    requires v.Some? ==> v.value <= |s|
  {
    if v.None? then None else Some(s[v.value..])
  }

  /** The lookup with the rest of the text in place of a position. */
  function Find(t: string, key: string, l: Lex): Option<string> {
    Suffix(t, Scan(t, key, 0, l))
  }

  lemma {:induction false} SkipShift(s: string, c: nat, i: nat)
    requires c <= |s|
    ensures c + SkipWs(s[c..], i) == SkipWs(s, c + i)
    decreases |s| - i
  {
    if c + i < |s| && IsSpace(s[c + i]) {
      SkipShift(s, c, i + 1);
    }
  }

  lemma {:induction false} KeyEndShift(s: string, c: nat, i: nat)
    requires c <= |s|
    ensures c + KeyEnd(s[c..], i) == KeyEnd(s, c + i)
    decreases |s| - i
  {
    if c + i < |s| && s[c + i] != '"' && s[c + i] != '\\' {
      KeyEndShift(s, c, i + 1);
    }
  }

  lemma SliceShift(s: string, c: nat, i: nat, j: nat)
    requires i <= j && c + j <= |s|
    ensures s[c..][i..j] == s[c + i..c + j] && s[c..][j..] == s[c + j..]
  {
  }

  lemma StringShift(s: string, key: string, c: nat, end: nat, l: Lex)
    requires end > 0 && StringAt(s, c, c + end, l)
    ensures StringAt(s[c..], 0, end, l) && KeyAt(s[c..], 0, end, key) == KeyAt(s, c, c + end, key)
    ensures KeyAt(s, c, c + end, key) ==> c + ValueOf(s[c..], Token(1, end)) == ValueOf(s, Token(c + 1, c + end))
  {
    KeyEndShift(s, c, 1);
    SkipShift(s, c, end + 1);
    SliceShift(s, c, 1, end);
    SkipShift(s, c, SkipWs(s[c..], end + 1) + 1);
  }

  lemma HitShift(s: string, key: string, c: nat, l: Lex, end: nat)
    requires end > 0 && StringAt(s, c, c + end, l) && KeyAt(s, c, c + end, key)
    ensures Suffix(s, Scan(s, key, c, l)) == Find(s[c..], key, l)
  {
    var v := HitValues(s, key, c, l, end);
    SliceShift(s, c, 0, v);
  }

  lemma HitValues(s: string, key: string, c: nat, l: Lex, end: nat) returns (v: nat)
    requires end > 0 && StringAt(s, c, c + end, l) && KeyAt(s, c, c + end, key)
    ensures c + v <= |s| && Scan(s, key, c, l) == Some(c + v) && Scan(s[c..], key, 0, l) == Some(v)
  {
    v := ValueOf(s[c..], Token(1, end));
    StringShift(s, key, c, end, l);
    ScanAt(s, key, c, c + end, l);
    ScanAt(s[c..], key, 0, end, l);
  }

  lemma MissShift(s: string, key: string, c: nat, l: Lex, end: nat)
    requires end > 0 && StringAt(s, c, c + end, l) && !KeyAt(s, c, c + end, key)
    ensures Scan(s, key, c, l) == Scan(s, key, c + end + 1, l)
    ensures Scan(s[c..], key, 0, l) == Scan(s[c..], key, end + 1, l)
  {
    StringShift(s, key, c, end, l);
    ScanAt(s, key, c, c + end, l);
    ScanAt(s[c..], key, 0, end, l);
  }

  /** Scanning on from a position is scanning what is left there. */
  lemma {:induction false} ScanShift(s: string, key: string, c: nat, l: Lex)
    requires c <= |s|
    ensures Suffix(s, Scan(s, key, c, l)) == Find(s[c..], key, l)
    decreases |s| - c, 1
  {
    if c == 0 {
      assert s[0..] == s;
    } else if c < |s| && !l.closed {
      if l.inString || s[c] != '"' || l.depth != 1 {
        CharShift(s, key, c, l);
      } else {
        KeyEndShift(s, c, 1);
        var end := KeyEnd(s[c..], 1);
        if At(s[c..], end) == '"' {
          if !KeyAt(s, c, c + end, key) {
            RestShift(s, key, c, l, end + 1);
          }
          JumpJoins(s, key, c, l, end);
        } else {
          UnendedShift(s, key, c, l);
        }
      }
    }
  }

  /** A string without a plain end yields nothing, seen either way. */
  lemma UnendedShift(s: string, key: string, c: nat, l: Lex)
    requires c < |s| && s[c] == '"' && !l.inString && !l.closed && l.depth == 1
    requires At(s[c..], KeyEnd(s[c..], 1)) != '"'
    ensures Suffix(s, Scan(s, key, c, l)) == Find(s[c..], key, l)
  {
    KeyEndShift(s, c, 1);
    assert Scan(s, key, c, l) == ScanString(s, key, c, l) == None;
    assert Scan(s[c..], key, 0, l) == ScanString(s[c..], key, 0, l) == None;
  }

  lemma {:induction false} CharShift(s: string, key: string, c: nat, l: Lex)
    requires 0 < c < |s| && !l.closed && (l.inString || s[c] != '"' || l.depth != 1)
    ensures Suffix(s, Scan(s, key, c, l)) == Find(s[c..], key, l)
    decreases |s| - c, 0
  {
    var t, next := s[c..], Next(l, s[c]);
    RestShift(s, key, c, next, 1);
    assert t[0] == s[c];
    assert Scan(s, key, c, l) == Scan(s, key, c + 1, next);
    assert Scan(t, key, 0, l) == Scan(t, key, 1, next);
  }

  /** The jump over a string, given the rest behind it agrees. */
  lemma JumpJoins(s: string, key: string, c: nat, l: Lex, end: nat)
    requires end > 0 && StringAt(s, c, c + end, l)
    requires KeyAt(s, c, c + end, key) || RestAgrees(s, key, c, l, end + 1)
    ensures Suffix(s, Scan(s, key, c, l)) == Find(s[c..], key, l)
  {
    if KeyAt(s, c, c + end, key) {
      HitShift(s, key, c, l, end);
    } else {
      MissShift(s, key, c, l, end);
    }
  }

  predicate RestAgrees(s: string, key: string, c: nat, l: Lex, n: nat) {
    c + n <= |s| && Suffix(s, Scan(s, key, c + n, l)) == Suffix(s[c..], Scan(s[c..], key, n, l))
  }

  lemma {:induction false} RestShift(s: string, key: string, c: nat, l: Lex, n: nat)
    requires 0 < n && c + n <= |s|
    ensures RestAgrees(s, key, c, l, n)
    decreases |s| - c - n, 2
  {
    ScanShift(s, key, c + n, l);
    ScanShift(s[c..], key, n, l);
    RestJoins(s, key, c, l, n);
  }

  lemma RestJoins(s: string, key: string, c: nat, l: Lex, n: nat)
    requires c + n <= |s| && Suffix(s, Scan(s, key, c + n, l)) == Find(s[c + n..], key, l)
    requires Suffix(s[c..], Scan(s[c..], key, n, l)) == Find(s[c..][n..], key, l)
    ensures RestAgrees(s, key, c, l, n)
  {
    SliceShift(s, c, 0, n);
  }

  predicate Outside(l: Lex) {
    !l.inString && !l.escaped && !l.closed && l.depth > 0
  }

  predicate Inside(l: Lex) {
    l.inString && !l.escaped && !l.closed && l.depth > 0
  }

  lemma FindStep(c: char, t: string, key: string, l: Lex)
    requires !l.closed && (l.inString || c != '"' || l.depth != 1)
    ensures Find([c] + t, key, l) == Find(t, key, Next(l, c))
  {
    var s := [c] + t;
    assert s[1..] == t && Scan(s, key, 0, l) == Scan(s, key, 1, Next(l, s[0]));
    ScanShift(s, key, 1, Next(l, c));
  }

  lemma {:induction false} FindPastNumber(t: string, rest: string, key: string, l: Lex)
    requires Outside(l) && forall i :: 0 <= i < |t| ==> NumberChar(t[i])
    ensures Find(t + rest, key, l) == Find(rest, key, l)
    decreases |t|
  {
    if t == [] {
      assert t + rest == rest;
    } else {
      FindPastNumber(t[1..], rest, key, l);
      FindStep(t[0], t[1..] + rest, key, l);
      assert t + rest == [t[0]] + (t[1..] + rest);
    }
  }

  /** Inside a string, an escape pair is two steps and changes nothing. */
  lemma FindPastPair(c: char, rest: string, key: string, l: Lex)
    requires Inside(l)
    ensures Find(['\\', c] + rest, key, l) == Find(rest, key, l)
  {
    assert ['\\', c] + rest == ['\\'] + ([c] + rest);
    FindStep('\\', [c] + rest, key, l);
    FindStep(c, rest, key, l.(escaped := true));
  }

  lemma {:induction false} FindPastSealed(t: string, rest: string, key: string, l: Lex)
    requires Inside(l) && Sealed(t)
    ensures Find(t + rest, key, l) == Find(rest, key, l)
    decreases |t|
  {
    if t == [] {
      assert t + rest == rest;
    } else if t[0] == '\\' {
      FindPastSealed(t[2..], rest, key, l);
      FindPastPair(t[1], t[2..] + rest, key, l);
      assert t + rest == ['\\', t[1]] + (t[2..] + rest);
    } else {
      FindPastSealed(t[1..], rest, key, l);
      FindStep(t[0], t[1..] + rest, key, l);
      assert t + rest == [t[0]] + (t[1..] + rest);
    }
  }

  /** A string deeper than the object's own level is passed over. */
  lemma FindPastDeepString(t: string, rest: string, key: string, l: Lex)
    requires Outside(l) && l.depth > 1 && Sealed(t)
    ensures Find("\"" + t + "\"" + rest, key, l) == Find(rest, key, l)
  {
    var inside := l.(inString := true);
    FindStep('"', t + ("\"" + rest), key, l);
    FindPastSealed(t, "\"" + rest, key, inside);
    FindStep('"', rest, key, inside);
    assert "\"" + t + "\"" + rest == ['"'] + (t + ("\"" + rest));
  }

  lemma {:induction false} FindPastDeepValue(v: Value, rest: string, key: string, l: Lex)
    requires Sound(v) && Outside(l) && (l.depth > 1 || !v.Text?)
    ensures Find(Show(v) + rest, key, l) == Find(rest, key, l)
    decreases v, 3
  {
    match v
    case Number(t) => FindPastNumber(t, rest, key, l);
    case Text(t) => FindPastDeepString(t, rest, key, l);
    case Nested(fields) =>
      var t := Members(fields);
      var deeper := l.(depth := l.depth + 1);
      FindStep('{', t + ("}" + rest), key, l);
      FindPastDeepMembers(fields, "}" + rest, key, deeper);
      FindStep('}', rest, key, deeper);
      assert Show(v) + rest == ['{'] + (t + ("}" + rest));
  }

  lemma {:induction false} FindPastDeepMembers(fields: seq<Field>, rest: string, key: string, l: Lex)
    requires AllSound(fields) && Outside(l) && l.depth > 1
    ensures Find(Members(fields) + rest, key, l) == Find(rest, key, l)
    decreases fields, 2
  {
    if fields == [] {
      assert Members(fields) + rest == rest;
    } else {
      var f := fields[0];
      MembersSplit(fields, rest);
      FindPastDeepKey(f.key, Shown(fields) + rest, key, l);
      FindPastDeepValue(f.value, Tail(fields) + rest, key, l);
      FindPastDeepTail(fields, rest, key, l);
    }
  }

  lemma {:induction false} FindPastDeepTail(fields: seq<Field>, rest: string, key: string, l: Lex)
    requires fields != [] && AllSound(fields) && Outside(l) && l.depth > 1
    ensures Find(Tail(fields) + rest, key, l) == Find(rest, key, l)
    decreases fields, 0
  {
    if |fields| == 1 {
      assert Tail(fields) + rest == rest;
    } else {
      var more := fields[1..];
      var text := Members(more);
      assert Tail(fields) + rest == [','] + (text + rest);
      FindStep(',', text + rest, key, l);
      RestSound(fields);
      FindPastDeepMembers(more, rest, key, l);
    }
  }

  lemma FindPastDeepKey(k: string, rest: string, key: string, l: Lex)
    requires Outside(l) && l.depth > 1 && Sealed(k)
    ensures Find(Quoted(k) + rest, key, l) == Find(rest, key, l)
  {
    FindPastDeepString(k, ":" + rest, key, l);
    FindStep(':', rest, key, l);
    assert Quoted(k) + rest == "\"" + k + "\"" + (":" + rest);
    assert ":" + rest == [':'] + rest;
  }

  // ---- Lookup at the object's own level ----

  const ROOT := Lex(false, false, 1, false)

  lemma {:induction false} KeyEndPlain(k: string, i: nat, s: string)
    requires Plain(k) && i <= |k| && |k| + 1 < |s| && s[1..|k| + 1] == k && s[|k| + 1] == '"'
    ensures KeyEnd(s, i + 1) == |k| + 1
    decreases |k| - i
  {
    if i < |k| {
      assert s[i + 1] == s[1..|k| + 1][i];
      KeyEndPlain(k, i + 1, s);
    }
  }

  lemma StringAhead(k: string, rest: string)
    requires Plain(k)
    ensures var s := "\"" + k + "\"" + rest;
            && KeyEnd(s, 1) == |k| + 1 && At(s, |k| + 1) == '"' && s[1..|k| + 1] == k && s[|k| + 2..] == rest
            && At(s, |k| + 2) == At(rest, 0)
  {
    var s := "\"" + k + "\"" + rest;
    assert s[1..|k| + 1] == k;
    KeyEndPlain(k, 0, s);
  }

  lemma SkipNothing(s: string, i: nat)
    requires !IsSpace(At(s, i))
    ensures SkipWs(s, i) == i
  {
  }

  /** A string directly inside the object, at the beginning of what is left. */
  lemma FindRootString(k: string, rest: string, key: string)
    requires Plain(k)
    ensures var s := "\"" + k + "\"" + rest;
            Find(s, key, ROOT) == if KeyAt(s, 0, |k| + 1, key) then Some(s[ValueOf(s, Token(1, |k| + 1))..])
                else Find(rest, key, ROOT)
  {
    var s := "\"" + k + "\"" + rest;
    StringAhead(k, rest);
    ScanAt(s, key, 0, |k| + 1, ROOT);
    ScanShift(s, key, |k| + 2, ROOT);
  }

  /** A string that is not followed by a colon is not taken for a key. */
  lemma FindPastRootString(t: string, rest: string, key: string)
    requires Plain(t) && At(rest, 0) != ':' && !IsSpace(At(rest, 0))
    ensures Find("\"" + t + "\"" + rest, key, ROOT) == Find(rest, key, ROOT)
  {
    FindRootString(t, rest, key);
    StringAhead(t, rest);
    SkipNothing("\"" + t + "\"" + rest, |t| + 2);
  }

  lemma FindHit(k: string, rest: string)
    requires Plain(k) && rest != [] && !IsSpace(rest[0])
    ensures Find(Quoted(k) + rest, k, ROOT) == Some(rest)
  {
    var s := "\"" + k + "\"" + (":" + rest);
    assert Quoted(k) + rest == s;
    FindRootString(k, ":" + rest, k);
    StringAhead(k, ":" + rest);
    SkipNothing(s, |k| + 2);
    assert s[|k| + 3..] == rest by {
      assert s[|k| + 2..][1..] == rest;
    }
    assert At(s, |k| + 3) == rest[0];
    SkipNothing(s, |k| + 3);
  }

  lemma FindMiss(k: string, rest: string, key: string)
    requires Plain(k) && k != key
    ensures Find(Quoted(k) + rest, key, ROOT) == Find(rest, key, ROOT)
  {
    var s := "\"" + k + "\"" + (":" + rest);
    assert Quoted(k) + rest == s;
    FindRootString(k, ":" + rest, key);
    StringAhead(k, ":" + rest);
    assert ":" + rest == [':'] + rest;
    FindStep(':', rest, key, ROOT);
  }

  predicate Ends(rest: string) {
    rest != [] && (rest[0] == ',' || rest[0] == '}')
  }

  lemma FindPastRootValue(v: Value, rest: string, key: string)
    requires Sound(v) && (v.Text? ==> Plain(v.text)) && Ends(rest)
    ensures Find(Show(v) + rest, key, ROOT) == Find(rest, key, ROOT)
  {
    if v.Text? {
      FindPastRootString(v.text, rest, key);
    } else {
      FindPastDeepValue(v, rest, key, ROOT);
    }
  }

  lemma ShowStartsVisibly(v: Value)
    requires Sound(v)
    ensures Show(v) != [] && !IsSpace(Show(v)[0])
  {
    if v.Number? {
      assert NumberChar(v.text[0]);
    }
  }

  lemma FindPastField(fields: seq<Field>, rest: string, key: string)
    requires AllSound(fields) && |fields| > 1 && fields[0].key != key
    requires Plain(fields[0].key) && (fields[0].value.Text? ==> Plain(fields[0].value.text))
    ensures Find(Members(fields) + rest, key, ROOT) == Find(Members(fields[1..]) + rest, key, ROOT)
  {
    MembersSplit(fields, rest);
    FindMiss(fields[0].key, Shown(fields) + rest, key);
    FindPastRootValue(fields[0].value, Tail(fields) + rest, key);
    FindStep(',', Members(fields[1..]) + rest, key, ROOT);
  }

  lemma FindFirst(fields: seq<Field>, rest: string)
    requires AllSound(fields) && fields != [] && Plain(fields[0].key)
    ensures Find(Members(fields) + rest, fields[0].key, ROOT) == Some(Shown(fields) + rest)
  {
    MembersSplit(fields, rest);
    ShowStartsVisibly(fields[0].value);
    FindHit(fields[0].key, Shown(fields) + rest);
  }

  /** In a list of members, the first field with a key is what the key leads to. */
  lemma {:induction false} FindInMembers(fields: seq<Field>, i: nat, rest: string)
    requires AllSound(fields) && i < |fields| && TopPlain(fields, i) && Ends(rest)
    requires forall j :: 0 <= j < i ==> fields[j].key != fields[i].key
    ensures Find(Members(fields) + rest, fields[i].key, ROOT) == Some(Shown(fields[i..]) + rest)
    decreases |fields|
  {
    if i == 0 {
      assert fields[0..] == fields;
      FindFirst(fields, rest);
    } else {
      var more := fields[1..];
      FindPastField(fields, rest, fields[i].key);
      RestSound(fields);
      FindInMembers(more, i - 1, rest);
      assert more[i - 1..] == fields[i..];
    }
  }

  /** Looking a key up in an object, with anything behind the object. */
  lemma FindInObject(fields: seq<Field>, i: nat, rest: string)
    requires AllSound(fields) && i < |fields| && TopPlain(fields, i)
    requires forall j :: 0 <= j < i ==> fields[j].key != fields[i].key
    ensures Find(Show(Nested(fields)) + rest, fields[i].key, START) == Some(Shown(fields[i..]) + ("}" + rest))
  {
    var t := Members(fields) + ("}" + rest);
    assert Show(Nested(fields)) + rest == ['{'] + t;
    FindStep('{', t, fields[i].key, START);
    FindInMembers(fields, i, "}" + rest);
  }

  // ---- The check on what is left of a text ----

  /** The check with the rest of the text in place of a position. */
  predicate Done(t: string, l: Lex, last: char, n: nat) {
    Check(t, 0, l, last, n)
  }

  lemma {:induction false} CheckShift(s: string, c: nat, l: Lex, last: char, n: nat)
    requires c <= |s|
    ensures Check(s, c, l, last, n) == Done(s[c..], l, last, n)
    decreases |s| - c
  {
    if c == 0 {
      assert s[0..] == s;
    } else if c < |s| && n < LINE_MAX {
      var t := s[c..];
      assert t[0] == s[c] && t[1..] == s[c + 1..];
      SkipShift(s, c, 1);
      var next, last' := Next(l, s[c]), if l.inString || IsSpace(s[c]) then last else s[c];
      CheckShift(s, c + 1, next, last', n + 1);
      CheckShift(t, 1, next, last', n + 1);
    }
  }

  /** The character is no misplaced comma, no brace behind a comma, and not the last brace. */
  predicate Fine(c: char, l: Lex, last: char) {
    && (l.inString || c != ',' || (last != ',' && last != '{'))
    && (l.inString || c != '}' || (last != ',' && l.depth > 1))
  }

  lemma DoneStep(c: char, t: string, l: Lex, last: char, n: nat)
    requires n < LINE_MAX && l.depth > 0 && !l.closed && Fine(c, l, last)
    ensures Done([c] + t, l, last, n) == Done(t, Next(l, c), if l.inString || IsSpace(c) then last else c, n + 1)
  {
    var s := [c] + t;
    assert s[1..] == t;
    CheckShift(s, 1, Next(l, c), if l.inString || IsSpace(c) then last else c, n + 1);
  }

  lemma {:induction false} DonePastNumber(t: string, rest: string, l: Lex, last: char, n: nat)
    requires Outside(l) && t != [] && (forall i :: 0 <= i < |t| ==> NumberChar(t[i])) && n + |t| <= LINE_MAX
    ensures Done(t + rest, l, last, n) == Done(rest, l, t[|t| - 1], n + |t|)
    decreases |t|
  {
    var more := t[1..];
    assert NumberChar(t[0]);
    DoneStep(t[0], more + rest, l, last, n);
    assert t + rest == [t[0]] + (more + rest);
    if more == [] {
      assert more + rest == rest;
    } else {
      DonePastNumber(more, rest, l, t[0], n + 1);
    }
  }

  lemma DonePastPair(c: char, rest: string, l: Lex, last: char, n: nat)
    requires Inside(l) && n + 2 <= LINE_MAX
    ensures Done(['\\', c] + rest, l, last, n) == Done(rest, l, last, n + 2)
  {
    assert ['\\', c] + rest == ['\\'] + ([c] + rest);
    DoneStep('\\', [c] + rest, l, last, n);
    DoneStep(c, rest, l.(escaped := true), last, n + 1);
  }

  lemma {:induction false} DonePastSealed(t: string, rest: string, l: Lex, last: char, n: nat)
    requires Inside(l) && Sealed(t) && n + |t| <= LINE_MAX
    ensures Done(t + rest, l, last, n) == Done(rest, l, last, n + |t|)
    decreases |t|
  {
    if t == [] {
      assert t + rest == rest;
    } else if t[0] == '\\' {
      DonePastSealed(t[2..], rest, l, last, n + 2);
      DonePastPair(t[1], t[2..] + rest, l, last, n);
      assert t + rest == ['\\', t[1]] + (t[2..] + rest);
    } else {
      DonePastSealed(t[1..], rest, l, last, n + 1);
      DoneStep(t[0], t[1..] + rest, l, last, n);
      assert t + rest == [t[0]] + (t[1..] + rest);
    }
  }

  lemma DoneOpens(rest: string, l: Lex, last: char, n: nat)
    requires Outside(l) && n < LINE_MAX
    ensures Done(['"'] + rest, l, last, n) == Done(rest, l.(inString := true), '"', n + 1)
  {
    DoneStep('"', rest, l, last, n);
  }

  lemma DoneCloses(rest: string, l: Lex, last: char, n: nat)
    requires Outside(l) && n < LINE_MAX
    ensures Done(['"'] + rest, l.(inString := true), last, n) == Done(rest, l, last, n + 1)
  {
    DoneStep('"', rest, l.(inString := true), last, n);
  }

  lemma InQuotes(t: string, rest: string)
    ensures "\"" + t + "\"" + rest == ['"'] + (t + (['"'] + rest))
  {
  }

  lemma DonePastQuotes(t: string, tail: string, rest: string, l: Lex, last: char, n: nat)
    requires Outside(l) && Sealed(t) && n + |t| + 2 <= LINE_MAX && tail == ['"'] + rest
    ensures Done(['"'] + (t + tail), l, last, n) == Done(rest, l, '"', n + |t| + 2)
  {
    DoneOpens(t + tail, l, last, n);
    DonePastSealed(t, tail, l.(inString := true), '"', n + 1);
    DoneCloses(rest, l, '"', n + 1 + |t|);
  }

  lemma DonePastString(t: string, rest: string, l: Lex, last: char, n: nat)
    requires Outside(l) && Sealed(t) && n + |t| + 2 <= LINE_MAX
    ensures Done("\"" + t + "\"" + rest, l, last, n) == Done(rest, l, '"', n + |t| + 2)
  {
    InQuotes(t, rest);
    DonePastQuotes(t, ['"'] + rest, rest, l, last, n);
  }

  lemma DonePastKey(k: string, rest: string, l: Lex, last: char, n: nat)
    requires Outside(l) && Sealed(k) && n + |Quoted(k)| <= LINE_MAX
    ensures Done(Quoted(k) + rest, l, last, n) == Done(rest, l, ':', n + |Quoted(k)|)
  {
    DonePastString(k, ":" + rest, l, last, n);
    DoneStep(':', rest, l, '"', n + |k| + 2);
    assert Quoted(k) + rest == "\"" + k + "\"" + (":" + rest);
    assert ":" + rest == [':'] + rest;
  }

  /** The last significant character of a value. */
  function LastOf(v: Value): (c: char)
    requires Sound(v)
    ensures c != ',' && c != '{'
  {
    match v
    case Number(t) => assert NumberChar(t[|t| - 1]); t[|t| - 1]
    case Text(_) => '"'
    case Nested(_) => '}'
  }

  lemma {:induction false} DonePastValue(v: Value, rest: string, l: Lex, last: char, n: nat)
    requires Sound(v) && Outside(l) && n + |Show(v)| <= LINE_MAX
    ensures Done(Show(v) + rest, l, last, n) == Done(rest, l, LastOf(v), n + |Show(v)|)
    decreases v, 3
  {
    match v
    case Number(t) => DonePastNumber(t, rest, l, last, n);
    case Text(t) => DonePastString(t, rest, l, last, n);
    case Nested(fields) =>
      var t := Members(fields);
      var deeper := l.(depth := l.depth + 1);
      assert Show(v) + rest == ['{'] + (t + ("}" + rest));
      DoneStep('{', t + ("}" + rest), l, last, n);
      DonePastMembers(fields, "}" + rest, deeper, '{', n + 1);
      assert "}" + rest == ['}'] + rest;
      DoneStep('}', rest, deeper, LastIn(fields, '{'), n + 1 + |t|);
  }

  function LastIn(fields: seq<Field>, last: char): (c: char)
    requires AllSound(fields)
    ensures c == last || (c != ',' && c != '{')
  {
    if fields == [] then last else LastOf(fields[|fields| - 1].value)
  }

  lemma {:induction false} DonePastMembers(fields: seq<Field>, rest: string, l: Lex, last: char, n: nat)
    requires AllSound(fields) && Outside(l) && n + |Members(fields)| <= LINE_MAX
    ensures Done(Members(fields) + rest, l, last, n) == Done(rest, l, LastIn(fields, last), n + |Members(fields)|)
    decreases fields, 2
  {
    if fields == [] {
      assert Members(fields) + rest == rest;
    } else {
      var f := fields[0];
      var n' := n + |Quoted(f.key)|;
      DonePastKey(f.key, Shown(fields) + rest, l, last, n);
      assert Members(fields) + rest == Quoted(f.key) + (Shown(fields) + rest);
      DonePastValue(f.value, Tail(fields) + rest, l, ':', n');
      assert Shown(fields) + rest == Show(f.value) + (Tail(fields) + rest);
      DonePastTail(fields, rest, l, n' + |Show(f.value)|);
    }
  }

  lemma {:induction false} DonePastTail(fields: seq<Field>, rest: string, l: Lex, n: nat)
    requires fields != [] && AllSound(fields) && Outside(l) && n + |Tail(fields)| <= LINE_MAX
    ensures Done(Tail(fields) + rest, l, LastOf(fields[0].value), n) ==
            Done(rest, l, LastIn(fields, ':'), n + |Tail(fields)|)
    decreases fields, 0
  {
    if |fields| == 1 {
      assert Tail(fields) + rest == rest;
    } else {
      var more := fields[1..];
      var text := Members(more);
      assert Tail(fields) + rest == [','] + (text + rest);
      DoneStep(',', text + rest, l, LastOf(fields[0].value), n);
      RestSound(fields);
      DonePastMembers(more, rest, l, ',', n + 1);
    }
  }

  // ---- What the scanner makes of a printed object ----

  /** The text a key leads to. */
  function Get(s: string, key: string): Option<string> {
    Suffix(s, FindKeyValue(s, key))
  }

  /** Every key of a printed object leads to the value of the first field with that key, whatever
      comes behind the object, and whatever escapes there are in the objects inside it: only in its own
      keys up to there and its own strings before there must be none. */
  lemma KeysLead(fields: seq<Field>, i: nat, rest: string)
    requires AllSound(fields) && i < |fields| && TopPlain(fields, i)
    requires forall j :: 0 <= j < i ==> fields[j].key != fields[i].key
    ensures Get(Show(Nested(fields)) + rest, fields[i].key) ==
            Some(Show(fields[i].value) + (Tail(fields[i..]) + ("}" + rest)))
    ensures Ends(Tail(fields[i..]) + ("}" + rest))
  {
    FindInObject(fields, i, rest);
    assert Shown(fields[i..]) + ("}" + rest) == Show(fields[i].value) + (Tail(fields[i..]) + ("}" + rest));
  }

  /** The same without escapes. */
  lemma PrintedKeysLead(fields: seq<Field>, i: nat, rest: string)
    requires AllWellFormed(fields) && i < |fields|
    requires forall j :: 0 <= j < i ==> fields[j].key != fields[i].key
    ensures Get(Show(Nested(fields)) + rest, fields[i].key) ==
            Some(Show(fields[i].value) + (Tail(fields[i..]) + ("}" + rest)))
    ensures Ends(Tail(fields[i..]) + ("}" + rest))
  {
    AllWellFormedIsSound(fields);
    KeysLead(fields, i, rest);
  }

  /** Every printed object of at most 8192 characters, with escapes anywhere, passes the completeness
      check. */
  lemma SoundIsComplete(fields: seq<Field>)
    requires AllSound(fields) && |Show(Nested(fields))| <= LINE_MAX
    ensures IsComplete(Show(Nested(fields)) + "\n")
  {
    var t := Members(fields);
    var s := Show(Nested(fields)) + "\n";
    assert s == ['{'] + (t + "}\n");
    assert s[1..] == t + "}\n";
    CheckShift(s, 1, ROOT, '{', 1);
    assert Done(s, START, NUL, 0) == Check(s, 1, ROOT, '{', 1);
    DonePastMembers(fields, "}\n", ROOT, '{', 1);
    var e := "}\n";
    assert SkipWs(e, 1) == 2;
  }

  lemma PrintedIsComplete(fields: seq<Field>)
    requires AllWellFormed(fields) && |Show(Nested(fields))| <= LINE_MAX
    ensures IsComplete(Show(Nested(fields)) + "\n")
  {
    AllWellFormedIsSound(fields);
    SoundIsComplete(fields);
  }
}
