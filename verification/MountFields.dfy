/**
  The three decoders of octal-escaped mount fields:
  `_decode_mount_field` (backend/app/local_disks.py), `_decode_mountinfo`
  (backend/app/network_mounts.py) and `_decode_mount` (backend/app/resource_dashboard.py).
 */
module MountFields {

  predicate IsOctal(c: char) {
    '0' <= c <= '7'
  }

  function OctalDigit(c: char): nat
    requires IsOctal(c)
  {
    c as int - '0' as int
  }

  /** chr(int(digits, 8)) for three octal digits. */
  function OctalChar(a: char, b: char, c: char): char
    requires IsOctal(a) && IsOctal(b) && IsOctal(c)
  {
    (64 * OctalDigit(a) + 8 * OctalDigit(b) + OctalDigit(c)) as char
  }

  /** The text starts with a backslash and three octal digits. */
  predicate StartsWithEscape(s: string) {
    |s| >= 4 && s[0] == '\\' && IsOctal(s[1]) && IsOctal(s[2]) && IsOctal(s[3])
  }

  /** re.sub of a backslash and three octal digits: leftmost matches, none overlapping. */
  function Substitute(s: string): string {
    if s == "" then ""
    else if StartsWithEscape(s) then [OctalChar(s[1], s[2], s[3])] + Substitute(s[4..])
    else [s[0]] + Substitute(s[1..])
  }

  lemma Append(a: string, b: string, c: string)
    ensures a + (b + c) == a + b + c
  {
  }

  const OCTAL := "01234567"

  lemma OctalDigits(d: char)
    ensures IsOctal(d) <==> d in OCTAL
    ensures IsOctal(d) ==> OCTAL[OctalDigit(d)] == d
  {
  }

  /** Every backslash with three digits from 0 to 7 is replaced by the character of that number. */
  lemma EscapesAreReplaced(x: nat, y: nat, z: nat, rest: string)
    requires x < 8 && y < 8 && z < 8
    ensures Substitute(['\\', OCTAL[x], OCTAL[y], OCTAL[z]] + rest) == [(64 * x + 8 * y + z) as char] + Substitute(rest)
  {
    var s := ['\\', OCTAL[x], OCTAL[y], OCTAL[z]] + rest;
    assert OctalDigit(OCTAL[x]) == x && OctalDigit(OCTAL[y]) == y && OctalDigit(OCTAL[z]) == z;
    assert s[4..] == rest;
  }

  /** Any other backslash, and every other character, stays. */
  lemma OthersStay(c: char, rest: string)
    requires c != '\\' || |rest| < 3 || rest[0] !in OCTAL || rest[1] !in OCTAL || rest[2] !in OCTAL
    ensures Substitute([c] + rest) == [c] + Substitute(rest)
  {
    assert ([c] + rest)[1..] == rest;
    if |rest| >= 3 {
      OctalDigits(rest[0]);
      OctalDigits(rest[1]);
      OctalDigits(rest[2]);
    }
  }

  predicate AllOctal(digits: string) {
    forall k :: 0 <= k < |digits| ==> IsOctal(digits[k])
  }

  /** The test of the indexed loop. */
  lemma EscapeAt(value: string, index: nat)
    requires index < |value|
    ensures StartsWithEscape(value[index..]) <==>
        value[index] == '\\' && index + 3 < |value| && AllOctal(value[index + 1..index + 4])
  {
    var rest := value[index..];
    if index + 3 < |value| {
      assert value[index + 1..index + 4] == rest[1..4];
      assert rest[1..4][0] == rest[1] && rest[1..4][1] == rest[2] && rest[1..4][2] == rest[3];
    }
  }

  /** The indexed loop of _decode_mount_field computes the substitution. */
  method DecodeMountField(value: string) returns (decoded: string)
    ensures decoded == Substitute(value)
  {
    decoded := "";
    var index := 0;
    while index < |value|
      invariant 0 <= index <= |value|
      invariant Substitute(value) == decoded + Substitute(value[index..])
    {
      ghost var rest := value[index..];
      if value[index] == '\\' && index + 3 < |value| {
        var digits := value[index + 1..index + 4];
        if AllOctal(digits) {
          EscapeAt(value, index);
          assert rest[4..] == value[index + 4..];
          Append(decoded, [OctalChar(digits[0], digits[1], digits[2])], Substitute(value[index + 4..]));
          decoded := decoded + [OctalChar(digits[0], digits[1], digits[2])];
          index := index + 4;
          continue;
        }
      }
      EscapeAt(value, index);
      assert rest[1..] == value[index + 1..];
      Append(decoded, [value[index]], Substitute(value[index + 1..]));
      decoded := decoded + [value[index]];
      index := index + 1;
    }
  }

  /** Python's s.replace(old, new) for a non-empty `old`. */
  function Replace(s: string, from: string, to: string): string
    requires from != ""
    decreases |s|
  {
    if s == "" then ""
    else if from <= s then to + Replace(s[|from|..], from, to)
    else [s[0]] + Replace(s[1..], from, to)
  }

  /** _decode_mount: four replacements, the backslash last. */
  function ReplaceInTurn(value: string): string {
    var s1 := Replace(value, "\\040", " ");
    var s2 := Replace(s1, "\\011", "\t");
    var s3 := Replace(s2, "\\012", "\n");
    Replace(s3, "\\134", "\\")
  }

  // ---- Inverting the kernel's escaping -----------------------------------------

  const KERNEL: set<char> := {' ', '\t', '\n', '\\'}

  /** The escape of a character that the kernel escapes in mount fields. */
  function EscapeOf(c: char): (e: string)
    requires c in KERNEL
    ensures |e| == 4 && e[0] == '\\' && IsOctal(e[1]) && IsOctal(e[2]) && IsOctal(e[3])
    ensures OctalChar(e[1], e[2], e[3]) == c
  {
    match c
    case ' ' => "\\040"
    case '\t' => "\\011"
    case '\n' => "\\012"
    case _ => "\\134"
  }

  function EscapeChar(c: char, which: set<char>): string
    requires which <= KERNEL
  {
    if c in which then EscapeOf(c) else [c]
  }

  /** The text with the characters of `which` escaped. */
  function Escape(s: string, which: set<char>): string
    requires which <= KERNEL
  {
    if s == "" then "" else EscapeChar(s[0], which) + Escape(s[1..], which)
  }

  lemma SubstituteStep(e: string, rest: string)
    requires |e| == 4 && StartsWithEscape(e)
    ensures Substitute(e + rest) == [OctalChar(e[1], e[2], e[3])] + Substitute(rest)
  {
    assert (e + rest)[4..] == rest;
  }

  /** The substitution inverts escaping whichever characters are escaped, if the backslash is one of them. */
  lemma {:induction false} SubstituteInverts(s: string, which: set<char>)
    requires which <= KERNEL && '\\' in which
    ensures Substitute(Escape(s, which)) == s
  {
    if s != "" {
      SubstituteInverts(s[1..], which);
      var rest := Escape(s[1..], which);
      if s[0] in which {
        SubstituteStep(EscapeOf(s[0]), rest);
      } else {
        assert Escape(s, which)[1..] == rest;
      }
      assert s == [s[0]] + s[1..];
    }
  }

  /** Undoing the escapes of one character leaves the others, as long as the backslash is escaped. */
  lemma {:induction false} ReplaceOne(s: string, which: set<char>, c: char)
    requires which <= KERNEL && c in which && '\\' in which
    ensures Replace(Escape(s, which), EscapeOf(c), [c]) == Escape(s, which - {c})
  {
    if s != "" {
      ReplaceOne(s[1..], which, c);
      var rest := Escape(s[1..], which);
      if s[0] == c {
        ReplaceHits(EscapeOf(c), rest, [c]);
      } else if s[0] in which {
        EscapesDiffer(s[0], c);
        ReplaceSkips(EscapeOf(s[0]), rest, EscapeOf(c), [c]);
      } else {
        ReplaceCopies(s[0], rest, EscapeOf(c), [c]);
      }
    }
  }

  lemma EscapesDiffer(a: char, b: char)
    requires a in KERNEL && b in KERNEL && a != b
    ensures EscapeOf(a) != EscapeOf(b)
  {
    var e, f := EscapeOf(a), EscapeOf(b);
    assert OctalChar(e[1], e[2], e[3]) != OctalChar(f[1], f[2], f[3]);
  }

  lemma ReplaceHits(from: string, rest: string, to: string)
    requires from != ""
    ensures Replace(from + rest, from, to) == to + Replace(rest, from, to)
  {
    assert (from + rest)[|from|..] == rest;
  }

  lemma ReplaceCopies(c: char, rest: string, from: string, to: string)
    requires from != "" && c != from[0]
    ensures Replace([c] + rest, from, to) == [c] + Replace(rest, from, to)
  {
    assert ([c] + rest)[1..] == rest;
  }

  /** A different escape is copied: the pattern starts with a backslash, which occurs in it only once. */
  lemma ReplaceSkips(e: string, rest: string, from: string, to: string)
    requires |e| == |from| == 4 && e != from && from[0] == '\\'
    requires e[1] != '\\' && e[2] != '\\' && e[3] != '\\'
    ensures Replace(e + rest, from, to) == e + Replace(rest, from, to)
  {
    assert (e + rest)[..4] == e;
    assert (e + rest)[1..] == [e[1]] + ([e[2]] + ([e[3]] + rest));
    assert Replace(e + rest, from, to) == [e[0]] + Replace((e + rest)[1..], from, to);
    ReplaceCopies(e[1], [e[2]] + ([e[3]] + rest), from, to);
    ReplaceCopies(e[2], [e[3]] + rest, from, to);
    ReplaceCopies(e[3], rest, from, to);
    assert e == [e[0]] + ([e[1]] + ([e[2]] + [e[3]]));
  }

  lemma {:induction false} EscapeNothing(s: string)
    ensures Escape(s, {}) == s
  {
    if s != "" {
      EscapeNothing(s[1..]);
    }
  }

  lemma ReplaceInTurnInverts(s: string)
    ensures ReplaceInTurn(Escape(s, KERNEL)) == s
  {
    var k1, k2: set<char>, k3: set<char> := {'\t', '\n', '\\'}, {'\n', '\\'}, {'\\'};
    assert KERNEL - {' '} == k1 && k1 - {'\t'} == k2 && k2 - {'\n'} == k3 && k3 - {'\\'} == {};
    assert EscapeOf(' ') == "\\040" && EscapeOf('\t') == "\\011";
    assert EscapeOf('\n') == "\\012" && EscapeOf('\\') == "\\134";
    ReplaceOne(s, KERNEL, ' ');
    ReplaceOne(s, k1, '\t');
    ReplaceOne(s, k2, '\n');
    ReplaceOne(s, k3, '\\');
    EscapeNothing(s);
  }

  /** All three decoders invert the kernel's escaping; the sequential one because the backslash comes last. */
  lemma DecodersInvertEscaping(s: string)
    ensures Substitute(Escape(s, KERNEL)) == s
    ensures ReplaceInTurn(Escape(s, KERNEL)) == s
  {
    SubstituteInverts(s, KERNEL);
    ReplaceInTurnInverts(s);
  }

  /** Replacing the backslash first would decode a backslash followed by `040` twice. */
  lemma BackslashFirstIsWrong()
    ensures var escaped := Escape("\\040", KERNEL);
            Replace(Replace(escaped, "\\134", "\\"), "\\040", " ") == " " != "\\040"
  {
    var escaped := "\\134040";
    assert "\\040"[1..] == "040" && "040"[1..] == "40" && "40"[1..] == "0" && "0"[1..] == "";
    assert Escape("0", KERNEL) == "0";
    assert Escape("40", KERNEL) == "40";
    assert Escape("040", KERNEL) == "040";
    assert Escape("\\040", KERNEL) == escaped;
    assert escaped[..4] == "\\134" && escaped[4..] == "040";
    assert Replace("", "\\134", "\\") == "";
    assert Replace("0", "\\134", "\\") == "0";
    assert Replace("40", "\\134", "\\") == "40";
    assert Replace("040", "\\134", "\\") == "040";
    assert Replace(escaped, "\\134", "\\") == "\\040";
    assert "\\040"[4..] == "";
  }
}
