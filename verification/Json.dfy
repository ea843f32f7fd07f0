/** The extraction of a top-level string field from clientDataJSON, against the
    grammar of JSON texts (sections 2, 4 and 7 of RFC 8259). */
module Json {
  import opened Bytes
  import opened Prelude

  const QUOTE: byte := 34
  const BACKSLASH: byte := 92
  const COMMA: byte := 44
  const COLON: byte := 58
  const OPEN_BRACE: byte := 123
  const CLOSE_BRACE: byte := 125
  const OPEN_BRACKET: byte := 91
  const CLOSE_BRACKET: byte := 93

  /** Tab, newline, form feed, carriage return and space; form feed is not JSON whitespace. */
  predicate Whitespace(b: byte) {
    b == 9 || b == 10 || b == 12 || b == 13 || b == 32
  }

  // ---------------------------------------------------------------------
  // The scanner, as a function of the bytes that are left

  function SkipWs(s: seq<byte>): (t: seq<byte>)
    ensures |t| <= |s|
  {
    if s != [] && Whitespace(s[0]) then SkipWs(s[1..]) else s
  }

  /** Where a string ends, given the bytes behind its opening quote. Strings
      with a backslash, and strings without an end, are refused. */
  function StringEnd(s: seq<byte>): (n: Option<nat>)
    ensures n.Some? ==> n.value < |s|
  {
    if s == [] || s[0] == BACKSLASH then None
    else if s[0] == QUOTE then Some(0)
    else
      match StringEnd(s[1..])
      case None => None
      case Some(n) => Some(n + 1)
  }

  /** Skips a value that is not a string, up to the comma or closing bracket behind it. */
  function SkipNested(s: seq<byte>, nest: nat): (t: Option<seq<byte>>)
    ensures t.Some? ==> 0 < |t.value| <= |s|
    decreases |s|
  {
    if s == [] then None
    else if s[0] == QUOTE then
      match StringEnd(s[1..])
      case None => None
      case Some(n) => SkipNested(s[n + 2..], nest)
    else if s[0] == OPEN_BRACE || s[0] == OPEN_BRACKET then SkipNested(s[1..], nest + 1)
    else if s[0] == CLOSE_BRACE || s[0] == CLOSE_BRACKET then
      if nest == 0 then Some(s) else SkipNested(s[1..], nest - 1)
    else if s[0] == COMMA && nest == 0 then Some(s)
    else SkipNested(s[1..], nest)
  }

  /** The bytes from a member's value on, given the bytes behind its key's closing quote. */
  function ValueStart(s: seq<byte>): (t: Option<seq<byte>>)
    ensures t.Some? ==> 0 < |t.value| < |s|
  {
    var colon := SkipWs(s);
    if colon == [] || colon[0] != COLON then None
    else
      var value := SkipWs(colon[1..]);
      if value == [] then None else Some(value)
  }

  function StringAt(s: seq<byte>): Option<seq<byte>>
    requires s != []
  {
    if s[0] != QUOTE then None
    else
      match StringEnd(s[1..])
      case None => None
      case Some(n) => Some(s[1..n + 1])
  }

  /** The bytes behind a value that is skipped. */
  function SkipValue(s: seq<byte>): (t: Option<seq<byte>>)
    requires s != []
    ensures t.Some? ==> |t.value| <= |s|
  {
    if s[0] == QUOTE then
      match StringEnd(s[1..])
      case None => None
      case Some(n) => Some(s[n + 2..])
    else SkipNested(s, 0)
  }

  function Scan(s: seq<byte>, depth: nat, field: seq<byte>): Option<seq<byte>>
    decreases |s|
  {
    if s == [] then None
    else if s[0] == OPEN_BRACE then Scan(s[1..], depth + 1, field)
    else if s[0] == CLOSE_BRACE then if depth == 0 then None else Scan(s[1..], depth - 1, field)
    else if depth == 1 && s[0] == QUOTE then ScanMember(s, field)
    else Scan(s[1..], depth, field)
  }

  function ScanMember(s: seq<byte>, field: seq<byte>): Option<seq<byte>>
    requires s != [] && s[0] == QUOTE
    decreases |s|, 1
  {
    match StringEnd(s[1..])
    case None => None
    case Some(n) => ScanValue(s[n + 2..], s[1..n + 1] == field, field)
  }

  /** Given the bytes behind a key's closing quote. */
  function ScanValue(s: seq<byte>, wanted: bool, field: seq<byte>): Option<seq<byte>>
    decreases |s|, 2
  {
    match ValueStart(s)
    case None => None
    case Some(value) =>
      if wanted then StringAt(value)
      else
        match SkipValue(value)
        case None => None
        case Some(rest) => Scan(rest, 1, field)
  }

  function Extract(json: seq<byte>, field: seq<byte>): Option<seq<byte>> {
    var s := SkipWs(json);
    if s == [] || s[0] != OPEN_BRACE then None else Scan(s, 0, field)
  }

  // ---------------------------------------------------------------------
  // The scanner, as it runs

  lemma Behind(s: seq<byte>, i: nat, j: nat)
    requires i + j <= |s|
    ensures s[i..][j..] == s[i + j..]
  {
  }

  method SkipWhitespace(json: seq<byte>, start: nat) returns (i: nat)
    requires start <= |json|
    ensures start <= i <= |json| && json[i..] == SkipWs(json[start..])
  {
    i := start;
    while i < |json| && Whitespace(json[i])
      invariant start <= i <= |json|
      invariant SkipWs(json[i..]) == SkipWs(json[start..])
    {
      Behind(json, i, 1);
      i := i + 1;
    }
  }

  function Shifted(n: Option<nat>, k: nat): Option<nat> {
    match n
    case None => None
    case Some(v) => Some(v + k)
  }

  method FindStringEnd(json: seq<byte>, start: nat) returns (end: Option<nat>)
    requires start <= |json|
    ensures end == Shifted(StringEnd(json[start..]), start)
  {
    var i := start;
    while i < |json|
      invariant start <= i <= |json|
      invariant Shifted(StringEnd(json[i..]), i) == Shifted(StringEnd(json[start..]), start)
    {
      Behind(json, i, 1);
      var b := json[i];
      if b == QUOTE { return Some(i); }
      if b == BACKSLASH { return None; }
      i := i + 1;
    }
    return None;
  }

  lemma SkipNestedStep(json: seq<byte>, i: nat, nest: nat)
    requires i < |json|
    ensures var b := json[i];
      SkipNested(json[i..], nest) == (
      if b == QUOTE then
        match StringEnd(json[i + 1..])
        case None => None
        case Some(n) => SkipNested(json[i + n + 2..], nest)
      else if b == OPEN_BRACE || b == OPEN_BRACKET then SkipNested(json[i + 1..], nest + 1)
      else if b == CLOSE_BRACE || b == CLOSE_BRACKET then
        if nest == 0 then Some(json[i..]) else SkipNested(json[i + 1..], nest - 1)
      else if b == COMMA && nest == 0 then Some(json[i..])
      else SkipNested(json[i + 1..], nest))
  {
    Behind(json, i, 1);
    if json[i] == QUOTE && StringEnd(json[i + 1..]).Some? {
      Behind(json, i, StringEnd(json[i + 1..]).value + 2);
    }
  }

  /** Skips with a bracket count; a string is consumed whole. */
  method SkipNestedValue(json: seq<byte>, start: nat) returns (end: Option<nat>)
    requires start <= |json|
    ensures end.Some? <==> SkipNested(json[start..], 0).Some?
    ensures end.Some? ==> start <= end.value < |json| && SkipNested(json[start..], 0) == Some(json[end.value..])
  {
    hide SkipNested, StringEnd;
    var cursor, nest: nat := start, 0;
    while cursor < |json|
      invariant start <= cursor <= |json|
      invariant SkipNested(json[cursor..], nest) == SkipNested(json[start..], 0)
      decreases |json| - cursor
    {
      SkipNestedStep(json, cursor, nest);
      var b := json[cursor];
      if b == QUOTE {
        var close := FindStringEnd(json, cursor + 1);
        if close.None? { return None; }
        cursor := close.value + 1;
        continue;
      }
      if b == OPEN_BRACE || b == OPEN_BRACKET {
        nest := nest + 1;
      } else if b == CLOSE_BRACE || b == CLOSE_BRACKET {
        if nest == 0 { return Some(cursor); }
        nest := nest - 1;
      } else if b == COMMA && nest == 0 {
        return Some(cursor);
      }
      cursor := cursor + 1;
    }
    NothingLeft(json, nest);
    return None;
  }

  lemma NothingLeft(json: seq<byte>, nest: nat)
    ensures SkipNested(json[|json|..], nest).None?
  {
  }

  /** Finds the value of the member whose key ended before `start`. */
  method FindValue(json: seq<byte>, start: nat) returns (value: Option<nat>)
    requires start <= |json|
    ensures value.Some? <==> ValueStart(json[start..]).Some?
    ensures value.Some? ==> start < value.value < |json| && ValueStart(json[start..]) == Some(json[value.value..])
  {
    hide SkipWs;
    var colon := SkipWhitespace(json, start);
    if colon >= |json| || json[colon] != COLON { return None; }
    Behind(json, colon, 1);
    var at := SkipWhitespace(json, colon + 1);
    if at >= |json| { return None; }
    return Some(at);
  }

  method ReadString(json: seq<byte>, start: nat) returns (r: Option<seq<byte>>)
    requires start < |json|
    ensures r == StringAt(json[start..])
  {
    hide StringEnd;
    if json[start] != QUOTE { return None; }
    Behind(json, start, 1);
    var end := FindStringEnd(json, start + 1);
    if end.None? { return None; }
    assert json[start + 1..end.value] == json[start..][1..end.value - start];
    return Some(json[start + 1..end.value]);
  }

  method SkipOver(json: seq<byte>, start: nat) returns (end: Option<nat>)
    requires start < |json|
    ensures end.Some? <==> SkipValue(json[start..]).Some?
    ensures end.Some? ==> start <= end.value <= |json| && SkipValue(json[start..]) == Some(json[end.value..])
  {
    hide StringEnd, SkipNested;
    if json[start] == QUOTE {
      Behind(json, start, 1);
      var close := FindStringEnd(json, start + 1);
      if close.None? { return None; }
      Behind(json, start, close.value + 1 - start);
      return Some(close.value + 1);
    }
    end := SkipNestedValue(json, start);
  }

  function Verdict(v: Option<seq<byte>>): Result<seq<byte>> {
    match v
    case None => Err(InvalidMessage)
    case Some(value) => Ok(value)
  }

  /** Reads one member: its verdict if it settles the search, or else where to go on. */
  method ReadMember(json: seq<byte>, start: nat, fieldName: seq<byte>)
    returns (found: Option<Result<seq<byte>>>, next: nat)
    requires start < |json| && json[start] == QUOTE
    ensures found.Some? ==> found.value == Verdict(ScanMember(json[start..], fieldName))
    ensures found.None? ==> (
      start < next <= |json| && ScanMember(json[start..], fieldName) == Scan(json[next..], 1, fieldName))
  {
    hide ValueStart, StringEnd, SkipValue, Scan, StringAt;
    next := start;
    Behind(json, start, 1);
    var keyEnd := FindStringEnd(json, start + 1);
    if keyEnd.None? { return Some(Err(InvalidMessage)), next; }
    var key := json[start + 1..keyEnd.value];
    assert key == json[start..][1..keyEnd.value - start];
    Behind(json, start, keyEnd.value + 1 - start);
    var value := FindValue(json, keyEnd.value + 1);
    if value.None? { return Some(Err(InvalidMessage)), next; }
    if key == fieldName {
      var text := ReadString(json, value.value);
      return Some(Verdict(text)), next;
    }
    var end := SkipOver(json, value.value);
    if end.None? { return Some(Err(InvalidMessage)), next; }
    return None, end.value;
  }

  lemma ScanStep(json: seq<byte>, i: nat, depth: nat, field: seq<byte>)
    requires i <= |json|
    ensures Scan(json[i..], depth, field) == (
      if i == |json| then None
      else if json[i] == OPEN_BRACE then Scan(json[i + 1..], depth + 1, field)
      else if json[i] == CLOSE_BRACE then if depth == 0 then None else Scan(json[i + 1..], depth - 1, field)
      else if depth == 1 && json[i] == QUOTE then ScanMember(json[i..], field)
      else Scan(json[i + 1..], depth, field))
  {
    if i < |json| { Behind(json, i, 1); }
  }

  /** Computes `Extract`. */
  method ExtractTopLevelStringField(json: seq<byte>, fieldName: seq<byte>) returns (r: Result<seq<byte>>)
    ensures r == Verdict(Extract(json, fieldName))
  {
    assert json[0..] == json;
    var i := SkipWhitespace(json, 0);
    hide SkipWs, Scan, ScanMember;
    if i >= |json| || json[i] != OPEN_BRACE { return Err(InvalidMessage); }
    var depth: nat, cursor := 0, i;
    while cursor < |json|
      invariant i <= cursor <= |json|
      invariant Scan(json[cursor..], depth, fieldName) == Extract(json, fieldName)
      decreases |json| - cursor
    {
      ScanStep(json, cursor, depth, fieldName);
      var b := json[cursor];
      if b == OPEN_BRACE {
        depth := depth + 1;
        cursor := cursor + 1;
        continue;
      }
      if b == CLOSE_BRACE {
        if depth == 0 { return Err(InvalidMessage); }
        depth := depth - 1;
        cursor := cursor + 1;
        continue;
      }
      if depth == 1 && b == QUOTE {
        var found, next := ReadMember(json, cursor, fieldName);
        if found.Some? { return found.value; }
        cursor := next;
        continue;
      }
      cursor := cursor + 1;
    }
    ScanStep(json, cursor, depth, fieldName);
    return Err(InvalidMessage);
  }
}
