/**
  Unit names for mount points: `_fallback_systemd_escape` of backend/app/network_mounts.py,
  with a decoder that shows that no two mount points share a name.
 */
module SystemdEscape {
  import opened Wrappers
  import opened Text

  // ---- UTF-8 -------------------------------------------------------------------

  /** char.encode(): the UTF-8 bytes of a code point. */
  function Utf8(c: char): seq<Byte> {
    var n := c as int;
    if n < 0x80 then [n]
    else if n < 0x800 then [0xC0 + n / 0x40, 0x80 + n % 0x40]
    else if n < 0x10000 then [0xE0 + n / 0x1000, 0x80 + n / 0x40 % 0x40, 0x80 + n % 0x40]
    else [0xF0 + n / 0x40000, 0x80 + n / 0x1000 % 0x40, 0x80 + n / 0x40 % 0x40, 0x80 + n % 0x40]
  }

  /** How many bytes a character takes, from its first byte. */
  function Width(first: Byte): nat {
    if first < 0xC0 then 1 else if first < 0xE0 then 2 else if first < 0xF0 then 3 else 4
  }

  /** The code point written by that many bytes. */
  function CodePoint(b: seq<Byte>): int
    requires |b| > 0 && |b| == Width(b[0])
  {
    match |b|
    case 1 => b[0]
    case 2 => (b[0] as int - 0xC0) * 0x40 + (b[1] as int - 0x80)
    case 3 => (b[0] as int - 0xE0) * 0x1000 + (b[1] as int - 0x80) * 0x40 + (b[2] as int - 0x80)
    case _ => (b[0] as int - 0xF0) * 0x40000 + (b[1] as int - 0x80) * 0x1000
              + (b[2] as int - 0x80) * 0x40 + (b[3] as int - 0x80)
  }

  lemma Utf8RoundTrip(c: char)
    ensures |Utf8(c)| > 0 && |Utf8(c)| == Width(Utf8(c)[0]) && CodePoint(Utf8(c)) == c as int
  {
    var n := c as int;
    assert n == n / 0x40 * 0x40 + n % 0x40;
    assert n / 0x40 == n / 0x1000 * 0x40 + n / 0x40 % 0x40;
    assert n / 0x1000 == n / 0x40000 * 0x40 + n / 0x1000 % 0x40;
  }

  // ---- Escaping ----------------------------------------------------------------

  const HEX := "0123456789abcdef"

  /** f"\\x{byte:02x}" */
  function HexByte(b: Byte): string {
    ['\\', 'x', HEX[b / 16], HEX[b % 16]]
  }

  function HexBytes(bytes: seq<Byte>): string {
    if bytes == [] then "" else HexByte(bytes[0]) + HexBytes(bytes[1..])
  }

  /** ASCII letters and digits, underscore and dot stand for themselves. */
  predicate Plain(c: char) {
    || 'a' <= c <= 'z' || 'A' <= c <= 'Z' || '0' <= c <= '9' || c == '_' || c == '.'
  }

  function EscapeChar(c: char): string {
    if c == '-' then "\\x2d" else if Plain(c) then [c] else HexBytes(Utf8(c))
  }

  function EscapeComponent(s: string): string {
    if s == "" then "" else EscapeChar(s[0]) + EscapeComponent(s[1..])
  }

  function EscapeComponents(components: seq<string>): seq<string> {
    if components == [] then [] else [EscapeComponent(components[0])] + EscapeComponents(components[1..])
  }

  /** path.strip("/") */
  function Strip(path: string): (r: string)
    ensures r == "" || (r[0] != '/' && r[|r| - 1] != '/')
  {
    if path == "" then ""
    else if path[0] == '/' then Strip(path[1..])
    else if path[|path| - 1] == '/' then Strip(path[..|path| - 1])
    else path
  }

  /** Only outer slashes go. */
  lemma {:induction false} StrippedAreSlashes(path: string) returns (before: string, after: string)
    ensures path == before + Strip(path) + after
    ensures (forall c :: c in before ==> c == '/') && (forall c :: c in after ==> c == '/')
    decreases |path|
  {
    if path == "" {
      before, after := "", "";
    } else if path[0] == '/' {
      var b, a := StrippedAreSlashes(path[1..]);
      before, after := "/" + b, a;
      assert path == [path[0]] + path[1..];
    } else if path[|path| - 1] == '/' {
      var b, a := StrippedAreSlashes(path[..|path| - 1]);
      before, after := b, a + "/";
      assert path == path[..|path| - 1] + [path[|path| - 1]];
    } else {
      before, after := "", "";
    }
  }

  /** One byte below 128, two below 2048, three below 65536, four above. */
  lemma Utf8Lengths(c: char)
    ensures |Utf8(c)| == 1 <==> c as int < 0x80
    ensures |Utf8(c)| == 2 <==> 0x80 <= c as int < 0x800
    ensures |Utf8(c)| == 3 <==> 0x800 <= c as int < 0x10000
    ensures 1 <= |Utf8(c)| <= 4
    ensures |Utf8(c)| == 1 ==> Utf8(c)[0] == c as int
    ensures |Utf8(c)| > 1 ==> forall b :: b in Utf8(c) ==> b >= 0x80
  {
  }

  /** A component is left as it is exactly when it holds letters, digits, underscores and dots alone. */
  lemma {:induction false} PlainComponentsStay(s: string)
    ensures |EscapeComponent(s)| >= |s|
    ensures EscapeComponent(s) == s <==>
              forall c :: c in s ==> 'a' <= c <= 'z' || 'A' <= c <= 'Z' || '0' <= c <= '9' || c in "_."
  {
    if s != "" {
      PlainComponentsStay(s[1..]);
      assert s == [s[0]] + s[1..] && s[0] in s;
      assert forall c :: c in s <==> c == s[0] || c in s[1..];
      EscapesAreLong(s[0]);
      if |EscapeChar(s[0])| == 1 {
        assert EscapeComponent(s)[1..] == EscapeComponent(s[1..]);
      }
    }
  }

  lemma EscapesAreLong(c: char)
    ensures EscapeChar(c) == [c] || |EscapeChar(c)| >= 4
    ensures EscapeChar(c) == [c] <==> 'a' <= c <= 'z' || 'A' <= c <= 'Z' || '0' <= c <= '9' || c in "_."
  {
    Utf8RoundTrip(c);
  }

  function UnitName(path: string): string {
    var joined := Join(EscapeComponents(Split(Strip(path), '/')), '-');
    if joined == "" then "-" else joined
  }

  /** The branches of the inner loop for one character. */
  method EscapeOneChar(c: char) returns (piece: string)
    ensures piece == EscapeChar(c)
  {
    if c == '-' {
      piece := "\\x2d";
    } else if Plain(c) {
      piece := [c];
    } else {
      piece := HexBytes(Utf8(c));
    }
  }

  lemma EscapeComponentAt(s: string, k: nat, done: string)
    requires k < |s|
    ensures done + EscapeComponent(s[k..]) == done + EscapeChar(s[k]) + EscapeComponent(s[k + 1..])
  {
    assert s[k..][1..] == s[k + 1..];
    assert done + (EscapeChar(s[k]) + EscapeComponent(s[k + 1..]))
           == done + EscapeChar(s[k]) + EscapeComponent(s[k + 1..]);
  }

  /** The inner loop: one component, character by character. */
  method EscapeOne(component: string) returns (result: string)
    ensures result == EscapeComponent(component)
  {
    result := "";
    for k := 0 to |component|
      invariant result + EscapeComponent(component[k..]) == EscapeComponent(component)
    {
      EscapeComponentAt(component, k, result);
      var piece := EscapeOneChar(component[k]);
      result := result + piece;
    }
  }

  /** The outer loop of the fallback. */
  method FallbackSystemdEscape(path: string) returns (name: string)
    ensures name == UnitName(path)
  {
    var components := Split(Strip(path), '/');
    var escaped: seq<string> := [];
    for i := 0 to |components|
      invariant escaped + EscapeComponents(components[i..]) == EscapeComponents(components)
    {
      var result := EscapeOne(components[i]);
      assert components[i..][1..] == components[i + 1..];
      escaped := escaped + [result];
    }
    assert escaped == EscapeComponents(components);
    name := Join(escaped, '-');
    if name == "" {
      name := "-";
    }
  }

  // ---- Decoding ----------------------------------------------------------------

  predicate IsHex(c: char) {
    '0' <= c <= '9' || 'a' <= c <= 'f'
  }

  function FromHex(c: char): int
    requires IsHex(c)
  {
    if c <= '9' then c as int - '0' as int else c as int - 'a' as int + 10
  }

  /** The byte escaped at the start of the text. */
  function ReadByte(t: string): Option<Byte> {
    if |t| >= 4 && t[0] == '\\' && t[1] == 'x' && IsHex(t[2]) && IsHex(t[3])
    then Some(16 * FromHex(t[2]) + FromHex(t[3]))
    else None
  }

  /** The first `n` escaped bytes of the text. */
  function ReadBytes(t: string, n: nat): (r: Option<seq<Byte>>)
    ensures r.Some? ==> |r.value| == n && 4 * n <= |t|
    decreases n
  {
    if n == 0 then Some([])
    else match ReadByte(t)
         case None => None
         case Some(b) =>
           match ReadBytes(t[4..], n - 1)
           case None => None
           case Some(rest) => Some([b] + rest)
  }

  predicate IsCharacter(n: int) {
    0 <= n < 0xD800 || 0xE000 <= n < 0x110000
  }

  /** The first character of an escaped component and the length of its escape. */
  function ReadChar(t: string): (r: Option<(char, nat)>)
    requires t != ""
    ensures r.Some? ==> 0 < r.value.1 <= |t|
  {
    if t[0] != '\\' then Some((t[0], 1))
    else match ReadByte(t)
         case None => None
         case Some(first) =>
           match ReadBytes(t, Width(first))
           case None => None
           case Some(bytes) =>
             if bytes[0] == first && IsCharacter(CodePoint(bytes))
             then Some((CodePoint(bytes) as char, 4 * Width(first)))
             else None
  }

  function UnescapeComponent(t: string): Option<string>
    decreases |t|
  {
    if t == "" then Some("")
    else match ReadChar(t)
         case None => None
         case Some((c, n)) =>
           match UnescapeComponent(t[n..])
           case None => None
           case Some(rest) => Some([c] + rest)
  }

  function UnescapeComponents(pieces: seq<string>): Option<seq<string>> {
    if pieces == [] then Some([])
    else match (UnescapeComponent(pieces[0]), UnescapeComponents(pieces[1..]))
         case (Some(first), Some(rest)) => Some([first] + rest)
         case _ => None
  }

  /** The path components a unit name stands for; a lone dash is the root. */
  function Unescape(name: string): Option<seq<string>> {
    if name == "-" then Some([""]) else UnescapeComponents(Split(name, '-'))
  }

  lemma ReadByteReads(b: Byte, rest: string)
    ensures ReadByte(HexByte(b) + rest) == Some(b) && (HexByte(b) + rest)[4..] == rest
  {
    HexDigits(b / 16);
    HexDigits(b % 16);
  }

  lemma HexDigits(d: nat)
    requires d < 16
    ensures IsHex(HEX[d]) && FromHex(HEX[d]) == d
  {
    assert HEX[d] as int == if d < 10 then 48 + d else 87 + d;
  }

  lemma {:induction false} ReadBytesReads(bytes: seq<Byte>, rest: string)
    ensures ReadBytes(HexBytes(bytes) + rest, |bytes|) == Some(bytes)
    decreases |bytes|
  {
    if bytes != [] {
      var first, more := bytes[0], bytes[1..];
      ReadBytesReads(more, rest);
      ReadBytesStep(first, HexBytes(more) + rest, |more|);
      SplitFirst(first, more, rest);
      assert [first] + more == bytes;
    }
  }

  lemma SplitFirst(first: Byte, more: seq<Byte>, rest: string)
    ensures HexBytes([first] + more) + rest == HexByte(first) + (HexBytes(more) + rest)
  {
    assert ([first] + more)[1..] == more;
    assert HexByte(first) + HexBytes(more) + rest == HexByte(first) + (HexBytes(more) + rest);
  }

  lemma {:induction false} HexLength(bytes: seq<Byte>)
    ensures |HexBytes(bytes)| == 4 * |bytes|
  {
    if bytes != [] {
      HexLength(bytes[1..]);
    }
  }

  lemma ReadBytesStep(b: Byte, tail: string, n: nat)
    requires ReadBytes(tail, n).Some?
    ensures ReadBytes(HexByte(b) + tail, n + 1) == Some([b] + ReadBytes(tail, n).value)
  {
    ReadByteReads(b, tail);
  }

  /** The bytes of a character can be read back, whatever follows them. */
  lemma ReadEncodedChar(c: char, rest: string)
    ensures var t := HexBytes(Utf8(c));
            t != "" && ReadChar(t + rest) == Some((c, |t|))
  {
    var bytes := Utf8(c);
    Utf8RoundTrip(c);
    ReadBytesReads(bytes, rest);
    HexLength(bytes);
    assert bytes == [bytes[0]] + bytes[1..];
    SplitFirst(bytes[0], bytes[1..], rest);
    ReadByteReads(bytes[0], HexBytes(bytes[1..]) + rest);
  }

  lemma DashBytes()
    ensures HexBytes(Utf8('-')) == "\\x2d"
  {
    assert Utf8('-') == [0x2d];
    assert HexBytes([0x2d]) == HexByte(0x2d) + HexBytes([]);
  }

  /** An escaped character can be read back, whatever follows it. */
  lemma ReadCharReads(c: char, rest: string)
    ensures EscapeChar(c) != ""
    ensures ReadChar(EscapeChar(c) + rest) == Some((c, |EscapeChar(c)|))
  {
    if c == '-' || !Plain(c) {
      DashBytes();
      ReadEncodedChar(c, rest);
    }
  }

  lemma {:induction false} UnescapeInvertsComponent(s: string)
    ensures UnescapeComponent(EscapeComponent(s)) == Some(s)
  {
    if s != "" {
      UnescapeInvertsComponent(s[1..]);
      var rest := EscapeComponent(s[1..]);
      ReadCharReads(s[0], rest);
      assert (EscapeChar(s[0]) + rest)[|EscapeChar(s[0])|..] == rest;
      assert s == [s[0]] + s[1..];
    }
  }

  lemma {:induction false} UnescapeInvertsComponents(components: seq<string>)
    ensures UnescapeComponents(EscapeComponents(components)) == Some(components)
  {
    if components != [] {
      UnescapeInvertsComponent(components[0]);
      UnescapeInvertsComponents(components[1..]);
      assert EscapeComponents(components)[1..] == EscapeComponents(components[1..]);
      assert components == [components[0]] + components[1..];
    }
  }

  /** Dashes separate components: none occurs inside an escaped one. */
  lemma {:induction false} EscapeHasNoDash(s: string)
    ensures '-' !in EscapeComponent(s)
  {
    if s != "" {
      EscapeHasNoDash(s[1..]);
      if s[0] != '-' && !Plain(s[0]) {
        HexHasNoDash(Utf8(s[0]));
      }
    }
  }

  lemma {:induction false} HexHasNoDash(bytes: seq<Byte>)
    ensures '-' !in HexBytes(bytes)
  {
    if bytes != [] {
      HexHasNoDash(bytes[1..]);
      HexDigits(bytes[0] / 16);
      HexDigits(bytes[0] % 16);
    }
  }

  lemma {:induction false} EscapedComponents(components: seq<string>)
    ensures |EscapeComponents(components)| == |components|
    ensures forall e :: e in EscapeComponents(components) ==> '-' !in e
  {
    if components != [] {
      EscapedComponents(components[1..]);
      EscapeHasNoDash(components[0]);
    }
  }

  /** A stripped path other than the root has a first component that is not empty. */
  lemma FirstComponent(path: string)
    requires Strip(path) != ""
    ensures Split(Strip(path), '/')[0] != ""
  {
  }

  /** The unit name gives back every component of the stripped path, in order. */
  lemma UnescapeInvertsUnitName(path: string)
    ensures Unescape(UnitName(path)) == Some(Split(Strip(path), '/'))
  {
    var components := Split(Strip(path), '/');
    var escaped := EscapeComponents(components);
    EscapedComponents(components);
    UnescapeInvertsComponents(components);
    SplitJoin(escaped, '-');
    if Strip(path) == "" {
      assert components == [""] && escaped == [""];
    } else {
      FirstComponent(path);
      ReadCharReads(components[0][0], "");
      assert escaped[0] == EscapeChar(components[0][0]) + EscapeComponent(components[0][1..]);
      assert escaped[0] != "" && escaped[0] in escaped && escaped[0][0] in escaped[0];
      assert Join(escaped, '-')[0] == escaped[0][0] != '-';
    }
  }

  /** Two paths share a unit name exactly when they are equal up to outer slashes. */
  lemma UnitNamesAreDistinct(p: string, q: string)
    ensures UnitName(p) == UnitName(q) <==> Strip(p) == Strip(q)
  {
    UnescapeInvertsUnitName(p);
    UnescapeInvertsUnitName(q);
    JoinSplit(Strip(p), '/');
    JoinSplit(Strip(q), '/');
  }
}
