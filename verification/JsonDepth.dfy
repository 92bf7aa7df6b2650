/**
  The nesting guard of backend/app/json_limits.py against the grammar of RFC 8259.

  `Value` is a concrete syntax tree: it keeps white space, escapes and member order, so
  `Render` reaches every well-formed text (sections 2 to 7). Numbers and the three literal
  names appear as any text without quotes, brackets and braces, which includes them all.
 */
module JsonDepth {
  import opened Wrappers

  // ---- The scanner -------------------------------------------------------------

  datatype Scan = Scan(depth: int, inString: bool, escaped: bool)

  datatype Error = NestingLimit | BadLimit

  function ScanChar(s: Scan, c: char, maxDepth: int): Result<Scan, Error> {
    if s.inString then
      Ok(if s.escaped then s.(escaped := false)
         else if c == '\\' then s.(escaped := true)
         else if c == '"' then s.(inString := false)
         else s)
    else if c == '"' then Ok(s.(inString := true))
    else if c == '[' || c == '{' then
      if s.depth + 1 > maxDepth then Err(NestingLimit) else Ok(s.(depth := s.depth + 1))
    else if c == ']' || c == '}' then Ok(s.(depth := s.depth - 1))
    else Ok(s)
  }

  function ScanText(s: Scan, text: string, maxDepth: int): Result<Scan, Error>
    decreases |text|
  {
    if text == "" then Ok(s)
    else match ScanChar(s, text[0], maxDepth)
         case Err(e) => Err(e)
         case Ok(s') => ScanText(s', text[1..], maxDepth)
  }

  const START := Scan(0, false, false)

  /** The scan of loads_with_depth_limit; the decoding that follows it is not modelled. */
  method CheckDepth(text: string, maxDepth: int) returns (r: Result<(), Error>)
    ensures maxDepth < 1 ==> r == Err(BadLimit)
    ensures maxDepth >= 1 ==> r == if ScanText(START, text, maxDepth).Ok? then Ok(()) else Err(NestingLimit)
  {
    if maxDepth < 1 {
      return Err(BadLimit);
    }
    var depth, inString, escaped := 0, false, false;
    for i := 0 to |text|
      invariant ScanText(START, text, maxDepth) == ScanText(Scan(depth, inString, escaped), text[i..], maxDepth)
    {
      var character := text[i];
      assert text[i..][1..] == text[i + 1..];
      if inString {
        if escaped {
          escaped := false;
        } else if character == '\\' {
          escaped := true;
        } else if character == '"' {
          inString := false;
        }
      } else if character == '"' {
        inString := true;
      } else if character in "[{" {
        depth := depth + 1;
        if depth > maxDepth {
          return Err(NestingLimit);
        }
      } else if character in "]}" {
        depth := depth - 1;
      }
    }
    r := Ok(());
  }

  // ---- The grammar -------------------------------------------------------------

  /** One item of a string: an unescaped character or a backslash escape. */
  datatype Item = Unescaped(c: char) | Escape(c: char) | UnicodeEscape(hex: string)

  /** Values, and the comma-separated elements and members inside them, each with its white space. */
  datatype Value =
    | Scalar(text: string)
    | Str(items: seq<Item>)
    | Arr(elements: Elements)
    | Obj(members: Members)

  datatype Elements = NoElements(space: string) | Element(before: string, value: Value, after: string, more: Elements)

  datatype Members =
    | NoMembers(space: string)
    | Member(before: string, name: seq<Item>, beforeColon: string, afterColon: string, value: Value, after: string,
             more: Members)

  predicate Space(s: string) {
    forall c :: c in s ==> c in " \t\n\r"
  }

  predicate ItemOk(i: Item) {
    match i
    case Unescaped(c) => c != '"' && c != '\\'
    case Escape(c) => c in "\"\\/bfnrt"
    case UnicodeEscape(hex) => |hex| == 4 && forall c :: c in hex ==> c in "0123456789abcdefABCDEF"
  }

  predicate ItemsOk(items: seq<Item>) {
    forall i :: i in items ==> ItemOk(i)
  }

  predicate WellFormed(v: Value) {
    match v
    case Scalar(text) => forall c :: c in text ==> c !in "\"\\[]{}"
    case Str(items) => ItemsOk(items)
    case Arr(elements) => ElementsOk(elements)
    case Obj(members) => MembersOk(members)
  }

  predicate ElementsOk(e: Elements) {
    match e
    case NoElements(space) => Space(space)
    case Element(before, v, after, more) =>
      Space(before) && WellFormed(v) && Space(after) && ElementsOk(more)
  }

  predicate MembersOk(m: Members) {
    match m
    case NoMembers(space) => Space(space)
    case Member(before, name, beforeColon, afterColon, v, after, more) =>
      && Space(before) && ItemsOk(name) && Space(beforeColon) && Space(afterColon)
      && WellFormed(v) && Space(after) && MembersOk(more)
  }

  function RenderItem(i: Item): string {
    match i
    case Unescaped(c) => [c]
    case Escape(c) => ['\\', c]
    case UnicodeEscape(hex) => ['\\', 'u'] + hex
  }

  function RenderItems(items: seq<Item>): string {
    if items == [] then "" else RenderItem(items[0]) + RenderItems(items[1..])
  }

  /** The text of a string is that of its items, one after the other. */
  lemma {:induction false} ItemsAreSpelledOut(items: seq<Item>, i: Item)
    ensures RenderItems(items + [i]) == RenderItems(items) + RenderItem(i)
    ensures RenderItem(i) ==
              match i
              case Unescaped(c) => [c]
              case Escape(c) => "\\" + [c]
              case UnicodeEscape(hex) => "\\u" + hex
  {
    if items == [] {
      assert items + [i] == [i] && [i][1..] == [];
      assert "" + RenderItem(i) == RenderItem(i) + "";
    } else {
      ItemsAreSpelledOut(items[1..], i);
      assert (items + [i])[1..] == items[1..] + [i];
      var first, more := RenderItem(items[0]), RenderItems(items[1..]);
      assert first + (more + RenderItem(i)) == first + more + RenderItem(i);
    }
  }

  function Quoted(items: seq<Item>): string {
    ['"'] + RenderItems(items) + ['"']
  }

  function Render(v: Value): string {
    match v
    case Scalar(text) => text
    case Str(items) => Quoted(items)
    case Arr(elements) => "[" + RenderElements(elements) + "]"
    case Obj(members) => "{" + RenderMembers(members) + "}"
  }

  /** A comma precedes every element but the first; the end of the list has no comma of its own. */
  function RenderElements(e: Elements): string {
    match e
    case NoElements(space) => space
    case Element(before, v, after, more) =>
      before + Render(v) + after + (if more.Element? then "," else "") + RenderElements(more)
  }

  function RenderMembers(m: Members): string {
    match m
    case NoMembers(space) => space
    case Member(before, name, beforeColon, afterColon, v, after, more) =>
      before + Quoted(name) + beforeColon + ":" + afterColon + Render(v) + after
      + (if more.Member? then "," else "") + RenderMembers(more)
  }

  function Max(a: nat, b: nat): nat {
    if a < b then b else a
  }

  /** The nesting depth of a value: a scalar or string has none, an array or object one more than its contents. */
  function Nesting(v: Value): nat {
    match v
    case Scalar(_) => 0
    case Str(_) => 0
    case Arr(elements) => 1 + ElementsNesting(elements)
    case Obj(members) => 1 + MembersNesting(members)
  }

  function ElementsNesting(e: Elements): nat {
    match e
    case NoElements(_) => 0
    case Element(_, v, _, more) => Max(Nesting(v), ElementsNesting(more))
  }

  function MembersNesting(m: Members): nat {
    match m
    case NoMembers(_) => 0
    case Member(_, _, _, _, v, _, more) => Max(Nesting(v), MembersNesting(more))
  }

  // ---- Scanning what the grammar produces --------------------------------------

  /** `text` adds `peak` levels on the way and none at its end: it is rejected exactly when they do not fit. */
  ghost predicate Climbs(text: string, peak: nat, maxDepth: int) {
    forall d :: 0 <= d <= maxDepth ==>
      ScanText(Scan(d, false, false), text, maxDepth)
        == if d + peak > maxDepth then Err(NestingLimit) else Ok(Scan(d, false, false))
  }

  lemma {:induction false} ScanConcat(s: Scan, a: string, b: string, maxDepth: int)
    ensures ScanText(s, a + b, maxDepth) ==
            match ScanText(s, a, maxDepth)
            case Err(e) => Err(e)
            case Ok(s') => ScanText(s', b, maxDepth)
    decreases |a|
  {
    if a == "" {
      assert a + b == b;
    } else {
      assert (a + b)[1..] == a[1..] + b;
      match ScanChar(s, a[0], maxDepth)
      case Err(_) =>
      case Ok(s') => ScanConcat(s', a[1..], b, maxDepth);
    }
  }

  lemma ClimbsConcat(a: string, p: nat, b: string, q: nat, maxDepth: int)
    requires Climbs(a, p, maxDepth) && Climbs(b, q, maxDepth)
    ensures Climbs(a + b, Max(p, q), maxDepth)
  {
    forall d | 0 <= d <= maxDepth
      ensures ScanText(Scan(d, false, false), a + b, maxDepth)
                == if d + Max(p, q) > maxDepth then Err(NestingLimit) else Ok(Scan(d, false, false))
    {
      ScanConcat(Scan(d, false, false), a, b, maxDepth);
    }
  }

  /** Text without quotes, brackets and braces is skipped. */
  lemma {:induction false} PlainClimbs(text: string, maxDepth: int)
    requires forall c :: c in text ==> c !in "\"\\[]{}"
    ensures Climbs(text, 0, maxDepth)
  {
    if text != "" {
      assert text[0] in text;
      forall c | c in text[1..]
        ensures c in text
      {
      }
      PlainClimbs(text[1..], maxDepth);
      forall d | 0 <= d <= maxDepth
        ensures ScanText(Scan(d, false, false), text, maxDepth) == Ok(Scan(d, false, false))
      {
        assert ScanChar(Scan(d, false, false), text[0], maxDepth) == Ok(Scan(d, false, false));
      }
    }
  }

  lemma SpaceClimbs(s: string, maxDepth: int)
    requires Space(s)
    ensures Climbs(s, 0, maxDepth)
  {
    forall c | c in s
      ensures c !in "\"\\[]{}"
    {
      assert c in " \t\n\r";
    }
    PlainClimbs(s, maxDepth);
  }

  lemma {:induction false} InsideString(text: string, d: int, maxDepth: int)
    requires forall c :: c in text ==> c != '"' && c != '\\'
    ensures ScanText(Scan(d, true, false), text, maxDepth) == Ok(Scan(d, true, false))
  {
    if text != "" {
      assert text[0] in text;
      forall c | c in text[1..]
        ensures c in text
      {
      }
      InsideString(text[1..], d, maxDepth);
    }
  }

  /** A backslash makes the scan skip the next character, whatever it is. */
  lemma EscapedPair(c: char, rest: string, d: int, maxDepth: int)
    ensures ScanText(Scan(d, true, false), ['\\', c] + rest, maxDepth) == ScanText(Scan(d, true, false), rest, maxDepth)
  {
    var text := ['\\', c] + rest;
    assert text[1..] == [c] + rest;
    assert ScanText(Scan(d, true, false), text, maxDepth) == ScanText(Scan(d, true, true), [c] + rest, maxDepth);
    assert ([c] + rest)[1..] == rest;
    assert ScanText(Scan(d, true, true), [c] + rest, maxDepth) == ScanText(Scan(d, true, false), rest, maxDepth);
  }

  lemma ItemStaysInside(i: Item, d: int, maxDepth: int)
    requires ItemOk(i)
    ensures ScanText(Scan(d, true, false), RenderItem(i), maxDepth) == Ok(Scan(d, true, false))
  {
    match i
    case Unescaped(c) =>
      InsideString([c], d, maxDepth);
    case Escape(c) =>
      EscapedPair(c, "", d, maxDepth);
      assert ['\\', c] + "" == ['\\', c];
    case UnicodeEscape(hex) =>
      EscapedPair('u', hex, d, maxDepth);
      HexIsPlain(hex);
      InsideString(hex, d, maxDepth);
  }

  lemma HexIsPlain(hex: string)
    requires forall c :: c in hex ==> c in "0123456789abcdefABCDEF"
    ensures forall c :: c in hex ==> c != '"' && c != '\\'
  {
  }

  lemma {:induction false} ItemsStayInside(items: seq<Item>, d: int, maxDepth: int)
    requires ItemsOk(items)
    ensures ScanText(Scan(d, true, false), RenderItems(items), maxDepth) == Ok(Scan(d, true, false))
  {
    if items != [] {
      assert items[0] in items;
      ItemStaysInside(items[0], d, maxDepth);
      ItemsStayInside(items[1..], d, maxDepth);
      ScanConcat(Scan(d, true, false), RenderItem(items[0]), RenderItems(items[1..]), maxDepth);
    }
  }

  /** A quoted string leaves the depth alone, whatever brackets and escapes it contains. */
  lemma QuotedClimbs(items: seq<Item>, maxDepth: int)
    requires ItemsOk(items)
    ensures Climbs(Quoted(items), 0, maxDepth)
  {
    forall d | 0 <= d <= maxDepth
      ensures ScanText(Scan(d, false, false), Quoted(items), maxDepth) == Ok(Scan(d, false, false))
    {
      var body := RenderItems(items);
      var text := Quoted(items);
      assert text == ['"'] + (body + ['"']) && text[1..] == body + ['"'];
      ItemsStayInside(items, d, maxDepth);
      ScanConcat(Scan(d, true, false), body, ['"'], maxDepth);
      assert ['"'][1..] == "";
      assert ScanText(Scan(d, true, false), ['"'], maxDepth) == ScanText(Scan(d, false, false), "", maxDepth);
    }
  }

  lemma CloseOne(close: char, d: int, maxDepth: int)
    requires close == ']' || close == '}'
    ensures ScanText(Scan(d + 1, false, false), [close], maxDepth) == Ok(Scan(d, false, false))
  {
    assert [close][1..] == "";
    assert ScanText(Scan(d + 1, false, false), [close], maxDepth) == ScanText(Scan(d, false, false), "", maxDepth);
  }

  lemma OpenOne(open: char, rest: string, d: int, maxDepth: int)
    requires open == '[' || open == '{'
    ensures ScanText(Scan(d, false, false), [open] + rest, maxDepth) ==
            if d + 1 > maxDepth then Err(NestingLimit) else ScanText(Scan(d + 1, false, false), rest, maxDepth)
  {
    assert ([open] + rest)[1..] == rest;
  }

  /** Brackets around a text add one level. */
  lemma BracketsClimb(open: char, text: string, close: char, peak: nat, maxDepth: int)
    requires Climbs(text, peak, maxDepth)
    requires (open == '[' && close == ']') || (open == '{' && close == '}')
    ensures Climbs([open] + text + [close], 1 + peak, maxDepth)
  {
    forall d | 0 <= d <= maxDepth
      ensures ScanText(Scan(d, false, false), [open] + text + [close], maxDepth)
                == if d + 1 + peak > maxDepth then Err(NestingLimit) else Ok(Scan(d, false, false))
    {
      assert [open] + text + [close] == [open] + (text + [close]);
      OpenOne(open, text + [close], d, maxDepth);
      ScanConcat(Scan(d + 1, false, false), text, [close], maxDepth);
      CloseOne(close, d, maxDepth);
    }
  }

  lemma {:induction false} ValueClimbs(v: Value, maxDepth: int)
    requires WellFormed(v)
    ensures Climbs(Render(v), Nesting(v), maxDepth)
    decreases v
  {
    match v
    case Scalar(text) => PlainClimbs(text, maxDepth);
    case Str(items) => QuotedClimbs(items, maxDepth);
    case Arr(elements) =>
      ElementsClimb(elements, maxDepth);
      BracketsClimb('[', RenderElements(elements), ']', ElementsNesting(elements), maxDepth);
    case Obj(members) =>
      MembersClimb(members, maxDepth);
      BracketsClimb('{', RenderMembers(members), '}', MembersNesting(members), maxDepth);
  }

  lemma {:induction false} ElementsClimb(e: Elements, maxDepth: int)
    requires ElementsOk(e)
    ensures Climbs(RenderElements(e), ElementsNesting(e), maxDepth)
    decreases e
  {
    match e
    case NoElements(space) => SpaceClimbs(space, maxDepth);
    case Element(before, v, after, more) =>
      SpaceClimbs(before, maxDepth);
      ValueClimbs(v, maxDepth);
      SpaceClimbs(after, maxDepth);
      var comma := if more.Element? then "," else "";
      PlainClimbs(comma, maxDepth);
      ElementsClimb(more, maxDepth);
      ClimbsConcat(before, 0, Render(v), Nesting(v), maxDepth);
      ClimbsConcat(before + Render(v), Nesting(v), after, 0, maxDepth);
      ClimbsConcat(before + Render(v) + after, Nesting(v), comma, 0, maxDepth);
      var element := before + Render(v) + after + comma;
      ClimbsConcat(element, Nesting(v), RenderElements(more), ElementsNesting(more), maxDepth);
  }

  lemma {:induction false} MembersClimb(m: Members, maxDepth: int)
    requires MembersOk(m)
    ensures Climbs(RenderMembers(m), MembersNesting(m), maxDepth)
    decreases m
  {
    match m
    case NoMembers(space) => SpaceClimbs(space, maxDepth);
    case Member(before, name, beforeColon, afterColon, v, after, more) =>
      SpaceClimbs(before, maxDepth);
      QuotedClimbs(name, maxDepth);
      SpaceClimbs(beforeColon, maxDepth);
      PlainClimbs(":", maxDepth);
      SpaceClimbs(afterColon, maxDepth);
      ValueClimbs(v, maxDepth);
      SpaceClimbs(after, maxDepth);
      var comma := if more.Member? then "," else "";
      PlainClimbs(comma, maxDepth);
      MembersClimb(more, maxDepth);
      var t1 := before + Quoted(name);
      ClimbsConcat(before, 0, Quoted(name), 0, maxDepth);
      ClimbsConcat(t1, 0, beforeColon, 0, maxDepth);
      ClimbsConcat(t1 + beforeColon, 0, ":", 0, maxDepth);
      ClimbsConcat(t1 + beforeColon + ":", 0, afterColon, 0, maxDepth);
      var t2 := t1 + beforeColon + ":" + afterColon;
      ClimbsConcat(t2, 0, Render(v), Nesting(v), maxDepth);
      ClimbsConcat(t2 + Render(v), Nesting(v), after, 0, maxDepth);
      ClimbsConcat(t2 + Render(v) + after, Nesting(v), comma, 0, maxDepth);
      ClimbsConcat(t2 + Render(v) + after + comma, Nesting(v), RenderMembers(more), MembersNesting(more), maxDepth);
  }

  /** On every well-formed text the scan rejects exactly when the value nests deeper than the limit. */
  lemma RejectsExactlyDeepValues(before: string, v: Value, after: string, maxDepth: int)
    requires maxDepth >= 1 && WellFormed(v) && Space(before) && Space(after)
    ensures ScanText(START, before + Render(v) + after, maxDepth)
              == if Nesting(v) > maxDepth then Err(NestingLimit) else Ok(START)
  {
    SpaceClimbs(before, maxDepth);
    ValueClimbs(v, maxDepth);
    SpaceClimbs(after, maxDepth);
    ClimbsConcat(before, 0, Render(v), Nesting(v), maxDepth);
    ClimbsConcat(before + Render(v), Nesting(v), after, 0, maxDepth);
  }
}
