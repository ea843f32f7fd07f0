/** JSON texts as trees (sections 2, 4 and 7 of RFC 8259), the member lookup on
    trees, and the agreement of the byte scanner with it. */
module JsonText {
  import opened Bytes
  import opened Prelude
  import opened Json

  /** A value with all its whitespace. `Scalar` covers numbers and the literal
      names; string bodies are raw, escapes included. */
  datatype Value =
    | Scalar(text: seq<byte>)
    | Str(body: seq<byte>)
    | Arr(pad: seq<byte>, elems: Elems)
    | Obj(pad: seq<byte>, members: Members)

  datatype Elems = NoElems | Elem(before: seq<byte>, value: Value, after: seq<byte>, more: Elems)

  datatype Members =
    | NoMembers
    | Member(before: seq<byte>, key: seq<byte>, beforeColon: seq<byte>, afterColon: seq<byte>,
             value: Value, after: seq<byte>, rest: Members)

  predicate Blank(s: seq<byte>) {
    forall i :: 0 <= i < |s| ==> s[i] == 9 || s[i] == 10 || s[i] == 13 || s[i] == 32
  }

  /** No unescaped quote, and no backslash at the end. */
  predicate StringBody(s: seq<byte>) {
    s == [] || (
      if s[0] == BACKSLASH then |s| >= 2 && StringBody(s[2..])
      else s[0] != QUOTE && StringBody(s[1..]))
  }

  /** A byte with a meaning of its own in the grammar. */
  predicate Structural(b: byte) {
    b == QUOTE || b == COMMA || b == COLON || b == OPEN_BRACE || b == CLOSE_BRACE
    || b == OPEN_BRACKET || b == CLOSE_BRACKET || b == BACKSLASH
  }

  predicate ScalarText(s: seq<byte>) {
    s != [] && forall i :: 0 <= i < |s| ==> !Structural(s[i]) && !Whitespace(s[i])
  }

  predicate WellFormed(v: Value) {
    match v
    case Scalar(text) => ScalarText(text)
    case Str(body) => StringBody(body)
    case Arr(pad, elems) => Blank(pad) && WellFormedElems(elems)
    case Obj(pad, members) => Blank(pad) && WellFormedMembers(members)
  }

  predicate WellFormedElems(es: Elems) {
    match es
    case NoElems => true
    case Elem(before, value, after, more) => Blank(before) && WellFormed(value) && Blank(after) && WellFormedElems(more)
  }

  predicate WellFormedMembers(ms: Members) {
    match ms
    case NoMembers => true
    case Member(before, key, beforeColon, afterColon, value, after, rest) =>
      Blank(before) && StringBody(key) && Blank(beforeColon) && Blank(afterColon) && WellFormed(value) && Blank(after)
      && WellFormedMembers(rest)
  }

  /** The text of a value, followed by `k`. */
  function Text(v: Value, k: seq<byte>): seq<byte> {
    match v
    case Scalar(text) => text + k
    case Str(body) => Quoted(body, k)
    case Arr(pad, elems) =>
      [OPEN_BRACKET] + if elems.NoElems? then pad + ([CLOSE_BRACKET] + k) else ElemsText(elems, [CLOSE_BRACKET] + k)
    case Obj(pad, members) =>
      [OPEN_BRACE] + if members.NoMembers? then pad + ([CLOSE_BRACE] + k) else MembersText(members, [CLOSE_BRACE] + k)
  }

  function Quoted(body: seq<byte>, k: seq<byte>): seq<byte> {
    [QUOTE] + (body + ([QUOTE] + k))
  }

  function ElemsText(es: Elems, k: seq<byte>): seq<byte> {
    match es
    case NoElems => k
    case Elem(before, value, after, more) =>
      before + Text(value, after + if more.NoElems? then k else [COMMA] + ElemsText(more, k))
  }

  function MembersText(ms: Members, k: seq<byte>): seq<byte> {
    match ms
    case NoMembers => k
    case Member(before, key, beforeColon, afterColon, value, after, rest) =>
      before + Quoted(key, beforeColon + ([COLON] + (afterColon
        + Text(value, after + if rest.NoMembers? then k else [COMMA] + MembersText(rest, k)))))
  }

  predicate Plain(s: seq<byte>) {
    BACKSLASH !in s
  }

  /** No string inside contains a backslash. */
  predicate Unescaped(v: Value) {
    match v
    case Scalar(_) => true
    case Str(body) => Plain(body)
    case Arr(_, elems) => UnescapedElems(elems)
    case Obj(_, members) => UnescapedMembers(members)
  }

  predicate UnescapedElems(es: Elems) {
    match es
    case NoElems => true
    case Elem(_, value, _, more) => Unescaped(value) && UnescapedElems(more)
  }

  predicate UnescapedMembers(ms: Members) {
    match ms
    case NoMembers => true
    case Member(_, key, _, _, value, _, rest) => Plain(key) && Unescaped(value) && UnescapedMembers(rest)
  }

  /** The value of the first member with this raw key, if it is a string. An
      escape met on the way there, or in it, ends the search. */
  function Lookup(ms: Members, field: seq<byte>): Option<seq<byte>> {
    match ms
    case NoMembers => None
    case Member(_, key, _, _, value, _, rest) =>
      if !Plain(key) || !Unescaped(value) then None
      else if key == field then if value.Str? then Some(value.body) else None
      else Lookup(rest, field)
  }

  // ---------------------------------------------------------------------
  // Steps of the scanner on text

  lemma {:induction false} BlankSkipped(w: seq<byte>, k: seq<byte>)
    requires Blank(w)
    ensures SkipWs(w + k) == SkipWs(k)
  {
    if w == [] {
      assert w + k == k;
    } else {
      assert (w + k)[1..] == w[1..] + k;
      BlankSkipped(w[1..], k);
    }
  }

  lemma {:induction false} StringEnds(body: seq<byte>, k: seq<byte>)
    requires StringBody(body)
    ensures StringEnd(body + ([QUOTE] + k)) == if Plain(body) then Some(|body|) else None
  {
    var s := body + ([QUOTE] + k);
    if body == [] {
      assert s[0] == QUOTE;
    } else if body[0] != BACKSLASH {
      assert s[1..] == body[1..] + ([QUOTE] + k);
      StringEnds(body[1..], k);
      assert Plain(body) <==> Plain(body[1..]) by { assert body == [body[0]] + body[1..]; }
    }
  }

  /** Splitting a quoted string off its text. */
  lemma QuotedParts(body: seq<byte>, k: seq<byte>)
    requires StringBody(body)
    ensures var s := Quoted(body, k);
      && s != [] && s[0] == QUOTE
      && StringEnd(s[1..]) == (if Plain(body) then Some(|body|) else None)
      && |s| >= |body| + 2 && s[1..|body| + 1] == body && s[|body| + 2..] == k
  {
    StringEnds(body, k);
    assert Quoted(body, k)[1..] == body + ([QUOTE] + k);
  }

  lemma {:induction false} PlainBytesSkipped(text: seq<byte>, k: seq<byte>, nest: nat)
    requires forall i :: 0 <= i < |text| ==> !Structural(text[i])
    ensures SkipNested(text + k, nest) == SkipNested(k, nest)
  {
    if text == [] {
      assert text + k == k;
    } else {
      assert (text + k)[1..] == text[1..] + k;
      PlainBytesSkipped(text[1..], k, nest);
    }
  }

  lemma ByteStep(b: byte, k: seq<byte>, nest: nat)
    ensures SkipNested([b] + k, nest) == (
      if b == QUOTE then
        match StringEnd(k)
        case None => None
        case Some(n) => SkipNested(k[n + 1..], nest)
      else if b == OPEN_BRACE || b == OPEN_BRACKET then SkipNested(k, nest + 1)
      else if b == CLOSE_BRACE || b == CLOSE_BRACKET then if nest == 0 then Some([b] + k) else SkipNested(k, nest - 1)
      else if b == COMMA && nest == 0 then Some([b] + k)
      else SkipNested(k, nest))
  {
    var s := [b] + k;
    assert s[1..] == k;
    if b == QUOTE && StringEnd(k).Some? { assert s[StringEnd(k).value + 2..] == k[StringEnd(k).value + 1..]; }
  }

  lemma QuotedSkipped(body: seq<byte>, k: seq<byte>, nest: nat)
    requires StringBody(body)
    ensures SkipNested(Quoted(body, k), nest) == if Plain(body) then SkipNested(k, nest) else None
  {
    StringEnds(body, k);
    ByteStep(QUOTE, body + ([QUOTE] + k), nest);
    assert (body + ([QUOTE] + k))[|body| + 1..] == k;
  }

  /** Skipping goes over a whole value, whatever brackets, commas and quotes it
      contains, unless one of its strings has an escape. */
  lemma {:induction false} ValueSkipped(v: Value, k: seq<byte>, nest: nat)
    requires WellFormed(v)
    ensures SkipNested(Text(v, k), nest) == if Unescaped(v) then SkipNested(k, nest) else None
    decreases v, 0
  {
    hide SkipNested, StringEnd, Quoted, Plain, StringBody, Structural, Whitespace;
    match v
    case Scalar(text) =>
      PlainBytesSkipped(text, k, nest);
    case Str(body) =>
      QuotedSkipped(body, k, nest);
    case Arr(pad, elems) =>
      ByteStep(CLOSE_BRACKET, k, nest + 1);
      if elems.NoElems? {
        BlankPassed(pad, [CLOSE_BRACKET] + k, nest + 1);
        ByteStep(OPEN_BRACKET, pad + ([CLOSE_BRACKET] + k), nest);
      } else {
        ElemsSkipped(elems, [CLOSE_BRACKET] + k, nest + 1);
        ByteStep(OPEN_BRACKET, ElemsText(elems, [CLOSE_BRACKET] + k), nest);
      }
    case Obj(pad, members) =>
      ByteStep(CLOSE_BRACE, k, nest + 1);
      if members.NoMembers? {
        BlankPassed(pad, [CLOSE_BRACE] + k, nest + 1);
        ByteStep(OPEN_BRACE, pad + ([CLOSE_BRACE] + k), nest);
      } else {
        MembersSkipped(members, [CLOSE_BRACE] + k, nest + 1);
        ByteStep(OPEN_BRACE, MembersText(members, [CLOSE_BRACE] + k), nest);
      }
  }

  lemma BlankPassed(w: seq<byte>, k: seq<byte>, nest: nat)
    requires Blank(w)
    ensures SkipNested(w + k, nest) == SkipNested(k, nest)
  {
    forall i | 0 <= i < |w| ensures !Structural(w[i]) { }
    PlainBytesSkipped(w, k, nest);
  }

  lemma {:induction false} ElemsSkipped(es: Elems, k: seq<byte>, nest: nat)
    requires WellFormedElems(es) && nest > 0
    ensures SkipNested(ElemsText(es, k), nest) == if UnescapedElems(es) then SkipNested(k, nest) else None
    decreases es, 1
  {
    hide SkipNested, StringEnd, Quoted, Plain, StringBody, Blank;
    match es
    case NoElems =>
    case Elem(before, value, after, more) =>
      var tail := if more.NoElems? then k else [COMMA] + ElemsText(more, k);
      BlankPassed(before, Text(value, after + tail), nest);
      ValueSkipped(value, after + tail, nest);
      BlankPassed(after, tail, nest);
      if more.Elem? {
        ByteStep(COMMA, ElemsText(more, k), nest);
        ElemsSkipped(more, k, nest);
      }
  }

  lemma {:induction false} MembersSkipped(ms: Members, k: seq<byte>, nest: nat)
    requires WellFormedMembers(ms) && nest > 0
    ensures SkipNested(MembersText(ms, k), nest) == if UnescapedMembers(ms) then SkipNested(k, nest) else None
    decreases ms, 1
  {
    hide SkipNested, StringEnd, Quoted, Plain, StringBody, Blank;
    match ms
    case NoMembers =>
    case Member(before, key, beforeColon, afterColon, value, after, rest) =>
      var tail := if rest.NoMembers? then k else [COMMA] + MembersText(rest, k);
      var fromValue := Text(value, after + tail);
      BlankPassed(before, Quoted(key, beforeColon + ([COLON] + (afterColon + fromValue))), nest);
      QuotedSkipped(key, beforeColon + ([COLON] + (afterColon + fromValue)), nest);
      BlankPassed(beforeColon, [COLON] + (afterColon + fromValue), nest);
      ByteStep(COLON, afterColon + fromValue, nest);
      BlankPassed(afterColon, fromValue, nest);
      ValueSkipped(value, after + tail, nest);
      BlankPassed(after, tail, nest);
      if rest.Member? {
        ByteStep(COMMA, MembersText(rest, k), nest);
        MembersSkipped(rest, k, nest);
      }
  }

  // ---------------------------------------------------------------------
  // The scanner against the lookup

  lemma ScanByte(b: byte, k: seq<byte>, depth: nat, field: seq<byte>)
    requires b != QUOTE || depth != 1
    ensures Scan([b] + k, depth, field) == (
      if b == OPEN_BRACE then Scan(k, depth + 1, field)
      else if b == CLOSE_BRACE then if depth == 0 then None else Scan(k, depth - 1, field)
      else Scan(k, depth, field))
  {
    assert ([b] + k)[1..] == k;
  }

  lemma {:induction false} BlankScanned(w: seq<byte>, k: seq<byte>, depth: nat, field: seq<byte>)
    requires Blank(w)
    ensures Scan(w + k, depth, field) == Scan(k, depth, field)
  {
    if w == [] {
      assert w + k == k;
    } else {
      assert w + k == [w[0]] + (w[1..] + k);
      ScanByte(w[0], w[1..] + k, depth, field);
      BlankScanned(w[1..], k, depth, field);
    }
  }

  /** The first byte of a value tells strings and objects from the rest. */
  lemma TextStarts(v: Value, k: seq<byte>)
    requires WellFormed(v)
    ensures var s := Text(v, k);
      s != [] && !Whitespace(s[0]) && (s[0] == QUOTE <==> v.Str?) && (s[0] == OPEN_BRACE <==> v.Obj?)
  {
  }

  /** Where the value of a member starts. */
  lemma ValueFound(beforeColon: seq<byte>, afterColon: seq<byte>, v: Value, k: seq<byte>)
    requires Blank(beforeColon) && Blank(afterColon) && WellFormed(v)
    ensures ValueStart(beforeColon + ([COLON] + (afterColon + Text(v, k)))) == Some(Text(v, k))
  {
    TextStarts(v, k);
    BlankSkipped(beforeColon, [COLON] + (afterColon + Text(v, k)));
    BlankSkipped(afterColon, Text(v, k));
    assert ([COLON] + (afterColon + Text(v, k)))[1..] == afterColon + Text(v, k);
  }

  lemma StringRead(v: Value, k: seq<byte>)
    requires WellFormed(v)
    ensures Text(v, k) != []
    ensures StringAt(Text(v, k)) == if v.Str? && Plain(v.body) then Some(v.body) else None
  {
    TextStarts(v, k);
    if v.Str? { QuotedParts(v.body, k); }
  }

  /** After a skipped value the scan goes on behind it. */
  lemma ScanGoesOn(v: Value, after: seq<byte>, tail: seq<byte>, field: seq<byte>)
    requires WellFormed(v) && Blank(after) && tail != [] && (tail[0] == COMMA || tail[0] == CLOSE_BRACE)
    ensures Text(v, after + tail) != []
    ensures var rest := SkipValue(Text(v, after + tail));
      if Unescaped(v) then rest.Some? && Scan(rest.value, 1, field) == Scan(tail, 1, field) else rest.None?
  {
    TextStarts(v, after + tail);
    BlankScanned(after, tail, 1, field);
    if v.Str? {
      QuotedParts(v.body, after + tail);
    } else {
      ValueSkipped(v, after + tail, 0);
      BlankPassed(after, tail, 0);
    }
  }

  /** One member: its verdict if it is the field, else what the rest gives. */
  lemma MemberScanned(ms: Members, tail: seq<byte>, field: seq<byte>)
    requires ms.Member? && WellFormed(ms.value) && StringBody(ms.key)
    requires Blank(ms.before) && Blank(ms.beforeColon) && Blank(ms.afterColon) && Blank(ms.after)
    requires tail != [] && (tail[0] == COMMA || tail[0] == CLOSE_BRACE)
    ensures Scan(ms.before + Quoted(ms.key, ms.beforeColon + ([COLON]
                 + (ms.afterColon + Text(ms.value, ms.after + tail)))), 1, field)
      == if !Plain(ms.key) || !Unescaped(ms.value) then None
         else if ms.key == field then if ms.value.Str? then Some(ms.value.body) else None
         else Scan(tail, 1, field)
  {
    var behindKey := ms.beforeColon + ([COLON] + (ms.afterColon + Text(ms.value, ms.after + tail)));
    BlankScanned(ms.before, Quoted(ms.key, behindKey), 1, field);
    QuotedParts(ms.key, behindKey);
    ValueFound(ms.beforeColon, ms.afterColon, ms.value, ms.after + tail);
    StringRead(ms.value, ms.after + tail);
    ScanGoesOn(ms.value, ms.after, tail, field);
    hide StringEnd, SkipNested, ValueStart, StringAt, SkipValue, Text, StringBody;
    var q := Quoted(ms.key, behindKey);
    assert Scan(q, 1, field) == ScanMember(q, field);
    if Plain(ms.key) {
      assert ScanMember(q, field) == ScanValue(behindKey, ms.key == field, field);
    }
  }

  lemma {:induction false} MembersScanned(ms: Members, trail: seq<byte>, field: seq<byte>)
    requires ms.Member? && WellFormedMembers(ms) && Blank(trail)
    ensures Scan(MembersText(ms, [CLOSE_BRACE] + trail), 1, field) == Lookup(ms, field)
  {
    hide Scan, Text, Quoted, Plain, Unescaped, Blank, StringBody;
    if ms.rest.NoMembers? {
      MemberScanned(ms, [CLOSE_BRACE] + trail, field);
      NothingBehind(trail, field);
    } else {
      MemberScanned(ms, [COMMA] + MembersText(ms.rest, [CLOSE_BRACE] + trail), field);
      ScanByte(COMMA, MembersText(ms.rest, [CLOSE_BRACE] + trail), 1, field);
      MembersScanned(ms.rest, trail, field);
    }
  }

  lemma NothingBehind(trail: seq<byte>, field: seq<byte>)
    requires Blank(trail)
    ensures Scan([CLOSE_BRACE] + trail, 1, field) == None
  {
    ScanByte(CLOSE_BRACE, trail, 1, field);
    BlankScanned(trail, [], 0, field);
    assert trail + [] == trail;
  }

  /** On every well-formed JSON text the scanner is the lookup among the members
      of the top-level object, and finds nothing in a text that is no object. */
  lemma ExtractIsLookup(lead: seq<byte>, v: Value, trail: seq<byte>, field: seq<byte>)
    requires Blank(lead) && WellFormed(v) && Blank(trail)
    ensures Extract(lead + Text(v, trail), field) == if v.Obj? then Lookup(v.members, field) else None
  {
    var s := Text(v, trail);
    TextStarts(v, trail);
    BlankSkipped(lead, s);
    if v.Obj? {
      assert s[1..] == if v.members.NoMembers? then v.pad + ([CLOSE_BRACE] + trail)
                       else MembersText(v.members, [CLOSE_BRACE] + trail);
      if v.members.NoMembers? {
        BlankScanned(v.pad, [CLOSE_BRACE] + trail, 1, field);
        NothingBehind(trail, field);
      } else {
        MembersScanned(v.members, trail, field);
      }
    }
  }

  /** The value of the first member with a key. */
  function FirstMember(ms: Members, field: seq<byte>): Option<Value> {
    match ms
    case NoMembers => None
    case Member(_, key, _, _, value, _, rest) => if key == field then Some(value) else FirstMember(rest, field)
  }

  /** In a text without escapes the result is the first member of that name, if
      it is a string: nothing inside other members can change it. */
  lemma {:induction false} LookupIsFirstMember(ms: Members, field: seq<byte>)
    requires UnescapedMembers(ms)
    ensures Lookup(ms, field) ==
      match FirstMember(ms, field)
      case None => None
      case Some(v) => if v.Str? then Some(v.body) else None
  {
    if !ms.Member? || ms.key == field {
    } else {
      LookupIsFirstMember(ms.rest, field);
    }
  }

  // ---------------------------------------------------------------------
  // Arbitrary input

  /** At offset `k` stands the quoted field name, then a colon, then the string `v`. */
  predicate KeyedString(s: seq<byte>, k: nat, field: seq<byte>, v: seq<byte>) {
    && k < |s| && s[k] == QUOTE && StringEnd(s[k + 1..]) == Some(|field|) && s[k + 1..k + 1 + |field|] == field
    && ValueStart(s[k + |field| + 2..]).Some?
    && StringAt(ValueStart(s[k + |field| + 2..]).value) == Some(v)
  }

  predicate Suffix(t: seq<byte>, s: seq<byte>) {
    |t| <= |s| && t == s[|s| - |t|..]
  }

  lemma SuffixBehind(t: seq<byte>, s: seq<byte>, k: nat)
    requires k <= |s| && Suffix(t, s[k..])
    ensures Suffix(t, s)
  {
  }

  lemma {:induction false} WsSuffix(s: seq<byte>)
    ensures Suffix(SkipWs(s), s)
  {
    if s == [] || !Whitespace(s[0]) {
    } else {
      WsSuffix(s[1..]);
      SuffixBehind(SkipWs(s[1..]), s, 1);
    }
  }

  lemma {:induction false} NestedSuffix(s: seq<byte>, nest: nat)
    requires SkipNested(s, nest).Some?
    ensures Suffix(SkipNested(s, nest).value, s)
    decreases |s|
  {
    hide Suffix, StringEnd;
    SelfSuffix(s);
    if s[0] == QUOTE {
      var n := StringEnd(s[1..]).value;
      NestedSuffix(s[n + 2..], nest);
      SuffixBehind(SkipNested(s[n + 2..], nest).value, s, n + 2);
    } else if SkipNested(s, nest) != Some(s) {
      var inner := if s[0] == OPEN_BRACE || s[0] == OPEN_BRACKET then nest + 1
        else if s[0] == CLOSE_BRACE || s[0] == CLOSE_BRACKET then nest - 1 else nest;
      NestedSuffix(s[1..], inner);
      SuffixBehind(SkipNested(s[1..], inner).value, s, 1);
    }
  }

  lemma SelfSuffix(s: seq<byte>)
    ensures Suffix(s, s)
  {
  }

  lemma SkippedSuffix(s: seq<byte>)
    requires s != [] && SkipValue(s).Some?
    ensures Suffix(SkipValue(s).value, s)
  {
    if s[0] != QUOTE { NestedSuffix(s, 0); }
  }

  lemma ValueSuffix(s: seq<byte>)
    requires ValueStart(s).Some?
    ensures Suffix(ValueStart(s).value, s)
  {
    var colon := SkipWs(s);
    WsSuffix(s);
    WsSuffix(colon[1..]);
    SuffixBehind(ValueStart(s).value, colon, 1);
  }

  ghost predicate Found(s: seq<byte>, field: seq<byte>, v: seq<byte>) {
    exists k: nat :: KeyedString(s, k, field, v)
  }

  lemma FoundInSuffix(t: seq<byte>, s: seq<byte>, field: seq<byte>, v: seq<byte>)
    requires Suffix(t, s) && Found(t, field, v)
    ensures Found(s, field, v)
  {
    hide ValueStart, StringAt, StringEnd;
    var k: nat :| KeyedString(t, k, field, v);
    var d := |s| - |t|;
    assert t[k + 1..] == s[d + k + 1..] && t[k + |field| + 2..] == s[d + k + |field| + 2..];
    assert t[k + 1..k + 1 + |field|] == s[d + k + 1..d + k + 1 + |field|];
    assert KeyedString(s, d + k, field, v);
  }

  /** On any input at all: what is returned is a string that stands behind the
      field's quoted name and a colon. */
  lemma {:induction false} ScanFinds(s: seq<byte>, depth: nat, field: seq<byte>)
    requires Scan(s, depth, field).Some?
    ensures Found(s, field, Scan(s, depth, field).value)
    decreases |s|
  {
    hide Suffix, StringEnd, SkipValue, ValueStart, StringAt, KeyedString, Found;
    var v := Scan(s, depth, field).value;
    if depth == 1 && s[0] == QUOTE {
      assert ScanMember(s, field) == Some(v);
      var n := StringEnd(s[1..]).value;
      assert ScanValue(s[n + 2..], s[1..n + 1] == field, field) == Some(v);
      var value := ValueStart(s[n + 2..]).value;
      if s[1..n + 1] == field {
        FoundAtStart(s, field, v);
      } else {
        var rest := SkipValue(value).value;
        ScanFinds(rest, 1, field);
        ValueSuffix(s[n + 2..]);
        SkippedSuffix(value);
        FoundInSuffix(rest, value, field, v);
        FoundInSuffix(value, s[n + 2..], field, v);
        TailSuffix(s, n + 2);
        FoundInSuffix(s[n + 2..], s, field, v);
      }
    } else {
      ScanFinds(s[1..], if s[0] == OPEN_BRACE then depth + 1 else if s[0] == CLOSE_BRACE then depth - 1 else depth,
                field);
      TailSuffix(s, 1);
      FoundInSuffix(s[1..], s, field, v);
    }
  }

  lemma TailSuffix(s: seq<byte>, k: nat)
    requires k <= |s|
    ensures Suffix(s[k..], s)
  {
  }

  lemma FoundAtStart(s: seq<byte>, field: seq<byte>, v: seq<byte>)
    requires s != [] && s[0] == QUOTE && StringEnd(s[1..]).Some?
    requires var n := StringEnd(s[1..]).value;
      s[1..n + 1] == field && ValueStart(s[n + 2..]).Some? && StringAt(ValueStart(s[n + 2..]).value) == Some(v)
    ensures Found(s, field, v)
  {
    assert |s[1..StringEnd(s[1..]).value + 1]| == |field|;
    assert KeyedString(s, 0, field, v);
  }
}
