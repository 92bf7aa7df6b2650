/**
  The DNS codec of backend/app/network_diagnostics.py: the question it sends and the
  response it reads, against the message format of RFC 1035 (sections 3.1, 4.1 and 4.1.4).

  Addresses are kept as their 4 or 16 bytes.
 */
module Dns {
  import opened Wrappers
  import opened Text

  type Bytes = seq<Byte>

  datatype Error = Invalid

  // ---- The encoder -------------------------------------------------------------

  predicate WordsOk(words: seq<nat>) {
    forall i :: 0 <= i < |words| ==> words[i] < 0x10000
  }

  /** struct.pack of 16-bit words in network order. */
  function Words(words: seq<nat>): (r: Bytes)
    requires WordsOk(words)
    ensures |r| == 2 * |words|
  {
    if words == [] then [] else [words[0] / 256, words[0] % 256] + Words(words[1..])
  }

  predicate Ascii(s: string) {
    forall c :: c in s ==> c < 128 as char
  }

  function AsciiBytes(s: string): (r: Bytes)
    requires Ascii(s)
    ensures |r| == |s|
  {
    if s == "" then []
    else
      assert s[0] in s;
      assert forall c :: c in s[1..] ==> c in s;
      [s[0] as int] + AsciiBytes(s[1..])
  }

  /** Each label with its length in front; a label of 256 bytes or more cannot be encoded. */
  function EncodeLabels(labels: seq<string>): Option<Bytes> {
    if labels == [] then Some([])
    else if !Ascii(labels[0]) || |labels[0]| > 255 then None
    else match EncodeLabels(labels[1..])
         case None => None
         case Some(rest) => Some([|labels[0]|] + AsciiBytes(labels[0]) + rest)
  }

  /** _dns_question: one question of type A and class IN, recursion desired. */
  function DnsQuestion(hostname: string, queryId: nat): Option<Bytes>
    requires queryId < 0x10000
  {
    match EncodeLabels(Split(hostname, '.'))
    case None => None
    case Some(encoded) =>
      Some(Words([queryId, 0x0100, 1, 0, 0, 0]) + (encoded + [0]) + Words([1, 1]))
  }

  /** A name can be encoded exactly when its labels are ASCII and their lengths fit into a byte. */
  lemma {:induction false} EncodableExactly(labels: seq<string>)
    ensures EncodeLabels(labels).Some? <==>
              forall l :: l in labels ==> |l| <= 255 && forall c :: c in l ==> c as int < 128
  {
    if labels != [] {
      EncodableExactly(labels[1..]);
      assert labels == [labels[0]] + labels[1..];
    }
  }

  // ---- The decoder -------------------------------------------------------------

  /**
    _skip_dns_name after `steps` labels: what follows the name in `s`. The two top bits of a
    length byte are set exactly when it is at least 192.
   */
  function SkipName(s: Bytes, steps: nat): (r: Option<Bytes>)
    ensures r.Some? ==> |r.value| < |s|
    decreases |s|
  {
    if s == [] || steps >= 128 then None
    else if s[0] == 0 then Some(s[1..])
    else if s[0] >= 192 then
      if |s| < 2 then None else Some(s[2..])
    else if s[0] > 63 || 1 + s[0] > |s| then None
    else SkipName(s[1 + s[0]..], steps + 1)
  }

  /** One label of the name at an offset. */
  lemma SkipAt(message: Bytes, offset: nat, steps: nat)
    requires offset < |message| && steps < 128
    ensures var length := message[offset];
            SkipName(message[offset..], steps) ==
              if length == 0 then Some(message[offset + 1..])
              else if length >= 192 then (if offset + 1 >= |message| then None else Some(message[offset + 2..]))
              else if length > 63 || offset + 1 + length > |message| then None
              else SkipName(message[offset + 1 + length..], steps + 1)
  {
    var s, length := message[offset..], message[offset];
    assert s[1..] == message[offset + 1..];
    if length >= 192 && offset + 1 < |message| {
      assert s[2..] == message[offset + 2..];
    }
    if length <= 63 && offset + 1 + length <= |message| {
      assert s[1 + length..] == message[offset + 1 + length..];
    }
  }

  /** The offset behind the name at `start`. */
  method SkipDnsName(message: Bytes, start: nat) returns (r: Option<nat>)
    requires start <= |message|
    ensures r.Some? <==> SkipName(message[start..], 0).Some?
    ensures r.Some? ==> start < r.value <= |message| && message[r.value..] == SkipName(message[start..], 0).value
  {
    var offset, steps := start, 0;
    while offset < |message| && steps < 128
      invariant start <= offset <= |message|
      invariant SkipName(message[start..], 0) == SkipName(message[offset..], steps)
    {
      SkipAt(message, offset, steps);
      var length := message[offset];
      if length == 0 {
        return Some(offset + 1);
      }
      if length >= 192 {
        if offset + 1 >= |message| {
          return None;
        }
        return Some(offset + 2);
      }
      if length > 63 || offset + 1 + length > |message| {
        return None;
      }
      offset, steps := offset + 1 + length, steps + 1;
    }
    r := None;
  }

  function U16At(s: Bytes, offset: nat): (r: nat)
    requires offset + 2 <= |s|
    ensures r < 0x10000
  {
    s[offset] as int * 256 + s[offset + 1]
  }

  datatype Rcode = NoError | FormErr | ServFail | NxDomain | NotImp | Refused | Other(n: nat)

  function RcodeOf(flags: nat): Rcode {
    match flags % 16
    case 0 => NoError
    case 1 => FormErr
    case 2 => ServFail
    case 3 => NxDomain
    case 4 => NotImp
    case 5 => Refused
    case n => Other(n)
  }

  /** What follows a part of the message, and the addresses found in the part. */
  type Read = Option<(Bytes, seq<Bytes>)>

  function ReadQuestion(s: Bytes): Read {
    match SkipName(s, 0)
    case None => None
    case Some(t) => if |t| < 4 then None else Some((t[4..], []))
  }

  predicate IsAddress(recordType: nat, recordClass: nat, length: nat) {
    recordClass == 1 && ((recordType == 1 && length == 4) || (recordType == 28 && length == 16))
  }

  /** The fields behind the name of an answer. */
  function ReadFields(t: Bytes): Read {
    if |t| < 10 then None
    else
      var length := U16At(t, 8);
      if |t| < 10 + length then None
      else Some((t[10 + length..], if IsAddress(U16At(t, 0), U16At(t, 2), length) then [t[10..10 + length]] else []))
  }

  function ReadAnswer(s: Bytes): Read {
    match SkipName(s, 0)
    case None => None
    case Some(t) => ReadFields(t)
  }

  /** `n` parts one after the other. */
  function ReadMany(read: Bytes -> Read, s: Bytes, n: nat): Read
    decreases n
  {
    if n == 0 then Some((s, []))
    else match read(s)
         case None => None
         case Some((t, first)) => Prepend(first, ReadMany(read, t, n - 1))
  }

  function Prepend(first: seq<Bytes>, r: Read): Read {
    match r
    case None => None
    case Some((t, rest)) => Some((t, first + rest))
  }

  /** list(dict.fromkeys(...)): first occurrences, in order. */
  function Dedup(s: seq<Bytes>): (r: seq<Bytes>)
    ensures forall x :: x in r <==> x in s
    ensures forall i, j :: 0 <= i < j < |r| ==> r[i] != r[j]
  {
    if s == [] then []
    else
      var init := Dedup(s[..|s| - 1]);
      assert s == s[..|s| - 1] + [s[|s| - 1]];
      if s[|s| - 1] in init then init else init + [s[|s| - 1]]
  }

  function Min(a: nat, b: nat): nat {
    if a < b then a else b
  }

  predicate HeaderOk(message: Bytes, queryId: nat) {
    |message| >= 12 && U16At(message, 0) == queryId && U16At(message, 2) >= 0x8000
  }

  function ParseResponse(message: Bytes, queryId: nat): Result<(Rcode, seq<Bytes>), Error> {
    if !HeaderOk(message, queryId) then Err(Invalid)
    else match ReadMany(ReadQuestion, message[12..], Min(U16At(message, 4), 16))
         case None => Err(Invalid)
         case Some((s, _)) =>
           match ReadMany(ReadAnswer, s, Min(U16At(message, 6), 128))
           case None => Err(Invalid)
           case Some((_, addresses)) => Ok((RcodeOf(U16At(message, 2)), Dedup(addresses)))
  }

  /** The fields at an offset. */
  lemma FieldsAt(message: Bytes, offset: nat)
    requires offset + 10 <= |message|
    ensures var length := U16At(message, offset + 8);
            ReadFields(message[offset..]) ==
              if offset + 10 + length > |message| then None
              else Some((message[offset + 10 + length..],
                         if IsAddress(U16At(message, offset), U16At(message, offset + 2), length)
                         then [message[offset + 10..offset + 10 + length]] else []))
  {
    var t, length := message[offset..], U16At(message, offset + 8);
    assert length == U16At(t, 8);
    if offset + 10 + length <= |message| {
      assert message[offset + 10..offset + 10 + length] == t[10..10 + length];
      assert message[offset + 10 + length..] == t[10 + length..];
    }
  }

  /** One turn of the answer loop: the offset behind the answer and its address, if any. */
  method NextAnswer(message: Bytes, start: nat) returns (r: Option<(nat, seq<Bytes>)>)
    requires start <= |message|
    ensures r.None? ==> ReadAnswer(message[start..]).None?
    ensures r.Some? ==>
              && r.value.0 <= |message|
              && ReadAnswer(message[start..]) == Some((message[r.value.0..], r.value.1))
  {
    var skipped := SkipDnsName(message, start);
    if skipped.None? || skipped.value + 10 > |message| {
      return None;
    }
    var offset := skipped.value;
    FieldsAt(message, offset);
    var length := U16At(message, offset + 8);
    if offset + 10 + length > |message| {
      return None;
    }
    var value := message[offset + 10..offset + 10 + length];
    var found := if IsAddress(U16At(message, offset), U16At(message, offset + 2), length) then [value] else [];
    r := Some((offset + 10 + length, found));
  }

  /** The loop over the answers. */
  method ReadAnswers(message: Bytes, start: nat, answers: nat) returns (r: Option<seq<Bytes>>)
    requires start <= |message|
    ensures match ReadMany(ReadAnswer, message[start..], answers)
            case None => r.None?
            case Some((_, addresses)) => r == Some(addresses)
  {
    var offset: nat := start;
    var addresses: seq<Bytes> := [];
    PrependNothing(ReadMany(ReadAnswer, message[start..], answers));
    for i := 0 to answers
      invariant offset <= |message|
      invariant ReadMany(ReadAnswer, message[start..], answers) ==
                Prepend(addresses, ReadMany(ReadAnswer, message[offset..], answers - i))
    {
      var answer := NextAnswer(message, offset);
      if answer.None? {
        return None;
      }
      var (next, found) := answer.value;
      PrependTwice(addresses, found, ReadMany(ReadAnswer, message[next..], answers - i - 1));
      offset, addresses := next, addresses + found;
    }
    assert addresses + [] == addresses;
    r := Some(addresses);
  }

  /** The loop over the questions: the offset of the first answer. */
  method SkipQuestions(message: Bytes, questions: nat) returns (r: Option<nat>)
    requires |message| >= 12
    ensures match ReadMany(ReadQuestion, message[12..], questions)
            case None => r.None?
            case Some((s, _)) => r.Some? && r.value <= |message| && s == message[r.value..]
  {
    var offset: nat := 12;
    for i := 0 to questions
      invariant offset <= |message|
      invariant ReadMany(ReadQuestion, message[12..], questions)
                == ReadMany(ReadQuestion, message[offset..], questions - i)
    {
      var skipped := SkipDnsName(message, offset);
      if skipped.None? || skipped.value + 4 > |message| {
        return None;
      }
      var next := skipped.value + 4;
      assert message[skipped.value..][4..] == message[next..];
      PrependNothing(ReadMany(ReadQuestion, message[next..], questions - i - 1));
      offset := next;
    }
    r := Some(offset);
  }

  lemma PrependNothing(r: Read)
    ensures Prepend([], r) == r
  {
    if r.Some? {
      assert [] + r.value.1 == r.value.1;
    }
  }

  lemma PrependTwice(a: seq<Bytes>, b: seq<Bytes>, r: Read)
    ensures Prepend(a, Prepend(b, r)) == Prepend(a + b, r)
  {
    if r.Some? {
      assert a + (b + r.value.1) == a + b + r.value.1;
    }
  }

  /** _parse_dns_response on any bytes: it stays in bounds and returns or rejects. */
  method ParseDnsResponse(message: Bytes, queryId: nat) returns (r: Result<(Rcode, seq<Bytes>), Error>)
    ensures r == ParseResponse(message, queryId)
  {
    if |message| < 12 {
      return Err(Invalid);
    }
    var flags := U16At(message, 2);
    if U16At(message, 0) != queryId || flags < 0x8000 {
      return Err(Invalid);
    }
    var offset := SkipQuestions(message, Min(U16At(message, 4), 16));
    if offset.None? {
      return Err(Invalid);
    }
    var addresses := ReadAnswers(message, offset.value, Min(U16At(message, 6), 128));
    if addresses.None? {
      return Err(Invalid);
    }
    r := Ok((RcodeOf(flags), Dedup(addresses.value)));
  }

  // ---- The message format ------------------------------------------------------

  datatype End = Root | Pointer(high: Byte, low: Byte)

  datatype Name = Name(labels: seq<Bytes>, end: End)

  datatype Question = Question(name: Name, qtype: nat, qclass: nat)

  datatype Record = Record(name: Name, rtype: nat, rclass: nat, ttl: nat, data: Bytes)

  /** A response; `tail` holds the authority and additional sections, which are not read. */
  datatype Message = Message(
    id: nat, flags: nat, questions: seq<Question>, answers: seq<Record>,
    authority: nat, additional: nat, tail: Bytes)

  predicate LabelsOk(labels: seq<Bytes>) {
    forall i :: 0 <= i < |labels| ==> 1 <= |labels[i]| <= 63
  }

  /** At most 127 labels of 1 to 63 bytes; a compressed name ends in a pointer. */
  predicate NameOk(n: Name) {
    && LabelsOk(n.labels) && |n.labels| <= 127
    && (n.end.Pointer? ==> n.end.high >= 192)
  }

  function RenderLabels(labels: seq<Bytes>): Bytes
    requires LabelsOk(labels)
  {
    if labels == [] then [] else [|labels[0]|] + labels[0] + RenderLabels(labels[1..])
  }

  function RenderEnd(e: End): Bytes {
    match e
    case Root => [0]
    case Pointer(high, low) => [high, low]
  }

  function RenderName(n: Name): Bytes
    requires LabelsOk(n.labels)
  {
    RenderLabels(n.labels) + RenderEnd(n.end)
  }

  predicate QuestionOk(q: Question) {
    NameOk(q.name) && q.qtype < 0x10000 && q.qclass < 0x10000
  }

  function RenderQuestion(q: Question): Bytes
    requires QuestionOk(q)
  {
    RenderName(q.name) + Words([q.qtype, q.qclass])
  }

  predicate RecordOk(r: Record) {
    NameOk(r.name) && r.rtype < 0x10000 && r.rclass < 0x10000 && r.ttl < 0x1_0000_0000 && |r.data| < 0x10000
  }

  /** Type, class, time to live and data length. */
  function Fields(r: Record): seq<nat> {
    [r.rtype, r.rclass, r.ttl / 0x10000, r.ttl % 0x10000, |r.data|]
  }

  function RenderRecord(r: Record): Bytes
    requires RecordOk(r)
  {
    RenderName(r.name) + (Words(Fields(r)) + r.data)
  }

  predicate QuestionsOk(qs: seq<Question>) {
    forall i :: 0 <= i < |qs| ==> QuestionOk(qs[i])
  }

  predicate RecordsOk(rs: seq<Record>) {
    forall i :: 0 <= i < |rs| ==> RecordOk(rs[i])
  }

  function Concat<T>(blocks: seq<seq<T>>): seq<T> {
    if blocks == [] then [] else blocks[0] + Concat(blocks[1..])
  }

  function QuestionBlocks(qs: seq<Question>): seq<Bytes>
    requires QuestionsOk(qs)
  {
    seq(|qs|, i requires 0 <= i < |qs| => RenderQuestion(qs[i]))
  }

  function RecordBlocks(rs: seq<Record>): seq<Bytes>
    requires RecordsOk(rs)
  {
    seq(|rs|, i requires 0 <= i < |rs| => RenderRecord(rs[i]))
  }

  function RenderQuestions(qs: seq<Question>): Bytes
    requires QuestionsOk(qs)
  {
    Concat(QuestionBlocks(qs))
  }

  function RenderRecords(rs: seq<Record>): Bytes
    requires RecordsOk(rs)
  {
    Concat(RecordBlocks(rs))
  }

  /** A response. */
  predicate MessageOk(m: Message) {
    && m.id < 0x10000 && 0x8000 <= m.flags < 0x10000
    && QuestionsOk(m.questions) && |m.questions| < 0x10000
    && RecordsOk(m.answers) && |m.answers| < 0x10000
    && m.authority < 0x10000 && m.additional < 0x10000
  }

  /** No more than 16 questions and 128 answers are read. */
  predicate WithinCaps(m: Message) {
    |m.questions| <= 16 && |m.answers| <= 128
  }

  function Header(m: Message): seq<nat> {
    [m.id, m.flags, |m.questions|, |m.answers|, m.authority, m.additional]
  }

  function RenderMessage(m: Message): Bytes
    requires MessageOk(m)
  {
    Words(Header(m)) + (RenderQuestions(m.questions) + (RenderRecords(m.answers) + m.tail))
  }

  /** The A or AAAA address of class IN in a record, if any. */
  function AddressOf(r: Record): seq<Bytes> {
    if IsAddress(r.rtype, r.rclass, |r.data|) then [r.data] else []
  }

  /** All those addresses, in order. */
  function Addresses(rs: seq<Record>): seq<Bytes> {
    Concat(seq(|rs|, i requires 0 <= i < |rs| => AddressOf(rs[i])))
  }

  // ---- Names -------------------------------------------------------------------

  /** Skipping a name leaves exactly what follows it. */
  lemma {:induction false} SkipReadsName(n: Name, rest: Bytes, steps: nat)
    requires LabelsOk(n.labels) && (n.end.Pointer? ==> n.end.high >= 192)
    requires steps + |n.labels| <= 127
    ensures SkipName(RenderName(n) + rest, steps) == Some(rest)
    decreases |n.labels|
  {
    if n.labels == [] {
      var s := RenderEnd(n.end) + rest;
      assert RenderName(n) + rest == s && s[|RenderEnd(n.end)|..] == rest;
    } else {
      var first, more := n.labels[0], Name(n.labels[1..], n.end);
      assert RenderName(n) == [|first|] + first + RenderName(more);
      assert RenderName(n) + rest == [|first|] + first + (RenderName(more) + rest);
      SkipLabel(first, RenderName(more) + rest, steps);
      SkipReadsName(more, rest, steps + 1);
    }
  }

  lemma SkipLabel(first: Bytes, t: Bytes, steps: nat)
    requires 1 <= |first| <= 63 && steps < 128
    ensures SkipName([|first|] + first + t, steps) == SkipName(t, steps + 1)
  {
    assert ([|first|] + first + t)[1 + |first|..] == t;
  }

  /** Whatever is skipped is a well-formed name. */
  lemma {:induction false} SkippedIsName(s: Bytes, steps: nat) returns (n: Name)
    requires SkipName(s, steps).Some? && steps <= 127
    ensures NameOk(n) && steps + |n.labels| <= 127
    ensures s == RenderName(n) + SkipName(s, steps).value
    decreases |s|
  {
    if s[0] == 0 || s[0] >= 192 {
      n := Name([], if s[0] == 0 then Root else Pointer(s[0], s[1]));
      assert RenderName(n) == RenderEnd(n.end);
    } else {
      var t := s[1 + s[0]..];
      var more := SkippedIsName(t, steps + 1);
      n := PrefixLabel(s[1..1 + s[0]], more);
      TakeLabel(s, s[1..1 + s[0]], RenderName(more), SkipName(t, steps + 1).value);
    }
  }

  lemma TakeLabel(s: Bytes, first: Bytes, more: Bytes, rest: Bytes)
    requires |s| > |first| && s[0] == |first| && s[1..1 + |first|] == first && s[1 + |first|..] == more + rest
    ensures s == [|first|] + first + more + rest
  {
  }

  lemma PrefixLabel(first: Bytes, more: Name) returns (n: Name)
    requires 1 <= |first| <= 63 && NameOk(more) && |more.labels| <= 126
    ensures NameOk(n) && |n.labels| == |more.labels| + 1
    ensures RenderName(n) == [|first|] + first + RenderName(more)
  {
    n := Name([first] + more.labels, more.end);
    assert n.labels[1..] == more.labels;
  }

  // ---- Words -------------------------------------------------------------------

  /** A list of words in front of anything reads back, and only that list does. */
  lemma {:induction false} WordsRead(words: seq<nat>, s: Bytes)
    requires WordsOk(words) && |s| >= 2 * |words|
    ensures s[..2 * |words|] == Words(words) <==> forall i :: 0 <= i < |words| ==> U16At(s, 2 * i) == words[i]
    decreases |words|
  {
    if words != [] {
      var t := s[2..];
      WordsRead(words[1..], t);
      var first: Bytes := [words[0] / 256, words[0] % 256];
      assert s[..2 * |words|] == s[..2] + t[..2 * |words[1..]|];
      assert s[..2] == [s[0], s[1]];
      assert s[..2] == first <==> U16At(s, 2 * 0) == words[0];
      assert forall i :: 0 <= i < |words[1..]| ==>
                          U16At(t, 2 * i) == U16At(s, 2 * (i + 1)) && words[1..][i] == words[i + 1];
      if s[..2 * |words|] == Words(words) {
        assert Words(words) == first + Words(words[1..]);
        assert s[..2] == Words(words)[..2] == first;
        assert t[..2 * |words[1..]|] == Words(words)[2..] == Words(words[1..]);
        forall i | 0 <= i < |words|
          ensures U16At(s, 2 * i) == words[i]
        {
          assert i > 0 ==> U16At(t, 2 * (i - 1)) == words[1..][i - 1];
        }
      }
      if forall i :: 0 <= i < |words| ==> U16At(s, 2 * i) == words[i] {
        assert U16At(s, 2 * 0) == words[0];
        forall i | 0 <= i < |words[1..]|
          ensures U16At(t, 2 * i) == words[1..][i]
        {
          assert U16At(s, 2 * (i + 1)) == words[i + 1];
        }
      }
    }
  }

  // ---- The question ------------------------------------------------------------

  /** The checks a hostname has passed before it is encoded. */
  predicate HostnameOk(hostname: string) {
    && |hostname| <= 253 && Ascii(hostname)
    && forall l :: l in Split(hostname, '.') ==> 1 <= |l| <= 63
  }

  function ByteLabels(labels: seq<string>): seq<Bytes>
    requires forall l :: l in labels ==> Ascii(l)
  {
    if labels == [] then []
    else
      assert labels[0] in labels;
      assert forall l :: l in labels[1..] ==> l in labels;
      [AsciiBytes(labels[0])] + ByteLabels(labels[1..])
  }

  lemma {:induction false} EncodedLabels(labels: seq<string>)
    requires forall l :: l in labels ==> Ascii(l) && 1 <= |l| <= 63
    ensures |ByteLabels(labels)| == |labels| && LabelsOk(ByteLabels(labels))
    ensures EncodeLabels(labels) == Some(RenderLabels(ByteLabels(labels)))
  {
    if labels != [] {
      assert labels[0] in labels;
      forall l | l in labels[1..]
        ensures l in labels
      {
      }
      EncodedLabels(labels[1..]);
      assert ByteLabels(labels)[1..] == ByteLabels(labels[1..]);
    }
  }

  lemma {:induction false} JoinLength(labels: seq<string>)
    requires |labels| > 0 && forall l :: l in labels ==> |l| >= 1
    ensures |Join(labels, '.')| >= 2 * |labels| - 1
  {
    assert labels[0] in labels;
    if |labels| > 1 {
      forall l | l in labels[1..]
        ensures l in labels
      {
      }
      JoinLength(labels[1..]);
    }
  }

  lemma {:induction false} PiecesAreAscii(s: string)
    requires Ascii(s)
    ensures forall l :: l in Split(s, '.') ==> Ascii(l)
  {
    if s != "" {
      assert s[0] in s;
      forall c | c in s[1..]
        ensures c in s
      {
      }
      PiecesAreAscii(s[1..]);
      var rest := Split(s[1..], '.');
      assert rest[0] in rest;
    }
  }

  /** The encoded labels of a hostname are those of a well-formed name. */
  lemma HostnameIsName(hostname: string) returns (n: Name)
    requires HostnameOk(hostname)
    ensures NameOk(n) && n.end == Root && |n.labels| == |Split(hostname, '.')| <= 127
    ensures EncodeLabels(Split(hostname, '.')) == Some(RenderLabels(n.labels))
    ensures Spelled(n.labels) == hostname
  {
    var labels := Split(hostname, '.');
    PiecesAreAscii(hostname);
    EncodedLabels(labels);
    JoinLength(labels);
    JoinSplit(hostname, '.');
    LabelsSpell(labels);
    n := Name(ByteLabels(labels), Root);
  }

  /** Identifier, flags, and the counts of a question. */
  function QuestionWords(queryId: nat): (words: seq<nat>)
    requires queryId < 0x10000
    ensures |words| == 6 && WordsOk(words)
  {
    [queryId, 0x0100, 1, 0, 0, 0]
  }

  /** The parts of a question: a header, a well-formed name, type and class. */
  lemma QuestionParts(hostname: string, queryId: nat) returns (n: Name)
    requires HostnameOk(hostname) && queryId < 0x10000
    ensures NameOk(n) && n.end == Root && Spelled(n.labels) == hostname
    ensures |n.labels| == |Split(hostname, '.')|
    ensures DnsQuestion(hostname, queryId) == Some(Words(QuestionWords(queryId)) + RenderName(n) + Words([1, 1]))
  {
    n := HostnameIsName(hostname);
  }

  lemma TakeHeader(header: Bytes, name: Bytes, tail: Bytes)
    requires |header| == 12
    ensures (header + name + tail)[..12] == header && (header + name + tail)[12..] == name + tail
  {
  }

  /** The question reads back: skipping the encoded name lands on the question type, with labels to spare. */
  lemma QuestionNameIsSkipped(hostname: string, queryId: nat)
    requires HostnameOk(hostname) && queryId < 0x10000
    ensures |Split(hostname, '.')| <= 127
    ensures DnsQuestion(hostname, queryId).Some? && |DnsQuestion(hostname, queryId).value| >= 12
    ensures SkipName(DnsQuestion(hostname, queryId).value[12..], 0) == Some(Words([1, 1]))
  {
    var n := QuestionParts(hostname, queryId);
    TakeHeader(Words(QuestionWords(queryId)), RenderName(n), Words([1, 1]));
    SkipReadsName(n, Words([1, 1]), 0);
  }

  /** Its header asks one question under the given identifier, recursion desired. */
  lemma QuestionHeader(hostname: string, queryId: nat)
    requires HostnameOk(hostname) && queryId < 0x10000
    ensures DnsQuestion(hostname, queryId).Some? && |DnsQuestion(hostname, queryId).value| >= 12
    ensures var question := DnsQuestion(hostname, queryId).value;
            && U16At(question, 0) == queryId && U16At(question, 2) == 0x0100 && U16At(question, 4) == 1
            && U16At(question, 6) == 0 && U16At(question, 8) == 0 && U16At(question, 10) == 0
  {
    var n := QuestionParts(hostname, queryId);
    TakeHeader(Words(QuestionWords(queryId)), RenderName(n), Words([1, 1]));
    SixWords(QuestionWords(queryId), DnsQuestion(hostname, queryId).value);
  }

  lemma SixWords(words: seq<nat>, s: Bytes)
    requires |words| == 6 && WordsOk(words) && |s| >= 12 && s[..12] == Words(words)
    ensures U16At(s, 0) == words[0] && U16At(s, 2) == words[1] && U16At(s, 4) == words[2]
    ensures U16At(s, 6) == words[3] && U16At(s, 8) == words[4] && U16At(s, 10) == words[5]
  {
    WordsRead(words, s);
    assert U16At(s, 2 * 0) == words[0] && U16At(s, 2 * 1) == words[1];
    assert U16At(s, 2 * 2) == words[2] && U16At(s, 2 * 3) == words[3];
    assert U16At(s, 2 * 4) == words[4] && U16At(s, 2 * 5) == words[5];
  }

  /** The characters of a label, and the name that labels spell. */
  function Characters(bytes: Bytes): string {
    seq(|bytes|, i requires 0 <= i < |bytes| => bytes[i] as char)
  }

  function Spelled(labels: seq<Bytes>): string {
    Join(seq(|labels|, i requires 0 <= i < |labels| => Characters(labels[i])), '.')
  }

  lemma {:induction false} CharactersOfBytes(s: string)
    requires Ascii(s)
    ensures Characters(AsciiBytes(s)) == s
  {
    if s != "" {
      assert s[0] in s;
      assert forall c :: c in s[1..] ==> c in s;
      CharactersOfBytes(s[1..]);
      assert Characters(AsciiBytes(s))[1..] == Characters(AsciiBytes(s[1..]));
      assert s == [s[0]] + s[1..];
    }
  }

  lemma {:induction false} LabelsOfBytes(labels: seq<string>, i: nat)
    requires forall l :: l in labels ==> Ascii(l)
    requires i < |labels|
    ensures |ByteLabels(labels)| == |labels| && Characters(ByteLabels(labels)[i]) == labels[i]
    decreases |labels|
  {
    assert labels[0] in labels;
    assert forall l :: l in labels[1..] ==> l in labels;
    if i == 0 {
      CharactersOfBytes(labels[0]);
      if |labels| > 1 {
        LabelsOfBytes(labels[1..], 0);
      }
    } else {
      LabelsOfBytes(labels[1..], i - 1);
    }
  }

  /** The name behind the header spells the hostname. */
  lemma QuestionSpellsHostname(hostname: string, queryId: nat) returns (n: Name)
    requires HostnameOk(hostname) && queryId < 0x10000
    ensures NameOk(n) && n.end == Root && Spelled(n.labels) == hostname
    ensures DnsQuestion(hostname, queryId).Some? && |DnsQuestion(hostname, queryId).value| >= 12
    ensures DnsQuestion(hostname, queryId).value[12..] == RenderName(n) + [0, 1, 0, 1]
  {
    n := QuestionParts(hostname, queryId);
    TakeHeader(Words(QuestionWords(queryId)), RenderName(n), Words([1, 1]));
    TypeAndClass();
  }

  lemma TypeAndClass()
    ensures Words([1, 1]) == [0, 1, 0, 1]
  {
    assert [1, 1][1..] == [1];
  }

  lemma LabelsSpell(labels: seq<string>)
    requires forall l :: l in labels ==> Ascii(l)
    ensures Spelled(ByteLabels(labels)) == Join(labels, '.')
  {
    var bytes := ByteLabels(labels);
    if labels != [] {
      LabelsOfBytes(labels, 0);
    }
    forall i | 0 <= i < |labels|
      ensures |bytes| == |labels| && Characters(bytes[i]) == labels[i]
    {
      LabelsOfBytes(labels, i);
    }
    assert seq(|bytes|, i requires 0 <= i < |bytes| => Characters(bytes[i])) == labels;
  }

  // ---- What a response says ----------------------------------------------------

  /** The code stands in the four low bits of the flags. */
  lemma RcodeIsLowBits(high: nat, n: nat)
    requires n < 16
    ensures RcodeOf(16 * high + n) ==
              if n < 6 then [NoError, FormErr, ServFail, NxDomain, NotImp, Refused][n] else Other(n)
  {
    assert (16 * high + n) % 16 == n;
  }

  /** An address is the data of an A record of four bytes or an AAAA record of sixteen, of class IN. */
  lemma {:induction false} AddressesAreThose(rs: seq<Record>, x: Bytes)
    ensures x in Addresses(rs) <==>
              exists i :: 0 <= i < |rs| && rs[i].data == x && rs[i].rclass == 1
                          && (rs[i].rtype, |x|) in {(1, 4), (28, 16)}
    decreases |rs|
  {
    if rs != [] {
      var found := seq(|rs|, i requires 0 <= i < |rs| => AddressOf(rs[i]));
      assert found[1..] == seq(|rs[1..]|, i requires 0 <= i < |rs[1..]| => AddressOf(rs[1..][i]));
      assert Addresses(rs) == AddressOf(rs[0]) + Addresses(rs[1..]);
      AddressesAreThose(rs[1..], x);
      if x in Addresses(rs[1..]) {
        var i :| 0 <= i < |rs[1..]| && rs[1..][i].data == x && rs[1..][i].rclass == 1
                 && (rs[1..][i].rtype, |x|) in {(1, 4), (28, 16)};
        assert rs[i + 1].data == x;
      }
    }
  }

  /** Addresses are reported in the order of their first appearance: more answers only add behind. */
  lemma {:induction false} DedupKeepsOrder(s: seq<Bytes>, t: seq<Bytes>)
    ensures Dedup(s) <= Dedup(s + t)
    decreases |t|
  {
    if t == [] {
      assert s + t == s;
    } else {
      var n := |t| - 1;
      assert (s + t)[..|s + t| - 1] == s + t[..n];
      DedupKeepsOrder(s, t[..n]);
    }
  }

  // ---- Whole responses ---------------------------------------------------------

  /** In front of anything, `read` takes exactly this block and finds these addresses. */
  ghost predicate ReadsBlock(read: Bytes -> Read, block: Bytes, found: seq<Bytes>) {
    forall rest: Bytes :: read(block + rest) == Some((rest, found))
  }

  lemma {:induction false} ReadManyReads(read: Bytes -> Read, blocks: seq<Bytes>, founds: seq<seq<Bytes>>, rest: Bytes)
    requires |blocks| == |founds|
    requires forall i :: 0 <= i < |blocks| ==> ReadsBlock(read, blocks[i], founds[i])
    ensures ReadMany(read, Concat(blocks) + rest, |blocks|) == Some((rest, Concat(founds)))
    decreases |blocks|
  {
    if blocks == [] {
      assert Concat(blocks) + rest == rest;
    } else {
      assert ReadsBlock(read, blocks[0], founds[0]);
      assert Concat(blocks) + rest == blocks[0] + (Concat(blocks[1..]) + rest);
      ReadManyReads(read, blocks[1..], founds[1..], rest);
    }
  }

  lemma QuestionIsRead(q: Question)
    requires QuestionOk(q)
    ensures ReadsBlock(ReadQuestion, RenderQuestion(q), [])
  {
    forall rest: Bytes
      ensures ReadQuestion(RenderQuestion(q) + rest) == Some((rest, []))
    {
      var words := Words([q.qtype, q.qclass]);
      assert RenderQuestion(q) + rest == RenderName(q.name) + (words + rest);
      SkipReadsName(q.name, words + rest, 0);
      assert (words + rest)[4..] == rest;
    }
  }

  lemma FieldsAreRead(r: Record, rest: Bytes)
    requires RecordOk(r)
    ensures ReadFields(Words(Fields(r)) + r.data + rest) == Some((rest, AddressOf(r)))
  {
    var words := Fields(r);
    var t := Words(words) + r.data + rest;
    WordsRead(words, t);
    assert t[..10] == Words(words);
    assert U16At(t, 2 * 0) == words[0] && U16At(t, 2 * 1) == words[1] && U16At(t, 2 * 4) == words[4];
    assert t[10..10 + |r.data|] == r.data && t[10 + |r.data|..] == rest;
  }

  lemma RecordIsRead(r: Record)
    requires RecordOk(r)
    ensures ReadsBlock(ReadAnswer, RenderRecord(r), AddressOf(r))
  {
    forall rest: Bytes
      ensures ReadAnswer(RenderRecord(r) + rest) == Some((rest, AddressOf(r)))
    {
      var t := Words(Fields(r)) + r.data + rest;
      assert RenderRecord(r) + rest == RenderName(r.name) + t;
      SkipReadsName(r.name, t, 0);
      FieldsAreRead(r, rest);
    }
  }

  lemma {:induction false} ConcatEmpty(n: nat)
    ensures Concat(seq<seq<Bytes>>(n, _ => [])) == []
  {
    if n > 0 {
      ConcatEmpty(n - 1);
      assert seq<seq<Bytes>>(n, _ => [])[1..] == seq<seq<Bytes>>(n - 1, _ => []);
    }
  }

  lemma QuestionsAreRead(qs: seq<Question>, rest: Bytes)
    requires QuestionsOk(qs)
    ensures ReadMany(ReadQuestion, RenderQuestions(qs) + rest, |qs|) == Some((rest, []))
  {
    var blocks := QuestionBlocks(qs);
    var founds := seq<seq<Bytes>>(|qs|, _ => []);
    forall i | 0 <= i < |qs|
      ensures ReadsBlock(ReadQuestion, blocks[i], founds[i])
    {
      QuestionIsRead(qs[i]);
    }
    ReadManyReads(ReadQuestion, blocks, founds, rest);
    ConcatEmpty(|qs|);
  }

  lemma RecordsAreRead(rs: seq<Record>, rest: Bytes)
    requires RecordsOk(rs)
    ensures ReadMany(ReadAnswer, RenderRecords(rs) + rest, |rs|) == Some((rest, Addresses(rs)))
  {
    var blocks := RecordBlocks(rs);
    var founds := seq(|rs|, i requires 0 <= i < |rs| => AddressOf(rs[i]));
    forall i | 0 <= i < |rs|
      ensures ReadsBlock(ReadAnswer, blocks[i], founds[i])
    {
      RecordIsRead(rs[i]);
    }
    ReadManyReads(ReadAnswer, blocks, founds, rest);
  }

  lemma HeaderIsRead(m: Message, message: Bytes)
    requires MessageOk(m) && |message| >= 12
    ensures message[..12] == Words(Header(m)) <==>
              && U16At(message, 0) == m.id && U16At(message, 2) == m.flags
              && U16At(message, 4) == |m.questions| && U16At(message, 6) == |m.answers|
              && U16At(message, 8) == m.authority && U16At(message, 10) == m.additional
  {
    var words := Header(m);
    WordsRead(words, message);
    assert (forall i :: 0 <= i < 6 ==> U16At(message, 2 * i) == words[i]) <==>
              && U16At(message, 2 * 0) == words[0] && U16At(message, 2 * 1) == words[1]
              && U16At(message, 2 * 2) == words[2] && U16At(message, 2 * 3) == words[3]
              && U16At(message, 2 * 4) == words[4] && U16At(message, 2 * 5) == words[5];
  }

  /** A rendered message in parts: its header fields and what follows them. */
  lemma MessageParts(m: Message, message: Bytes)
    requires MessageOk(m) && message == RenderMessage(m)
    ensures |message| >= 12 && HeaderOk(message, m.id) && U16At(message, 2) == m.flags
    ensures U16At(message, 4) == |m.questions| && U16At(message, 6) == |m.answers|
    ensures message[12..] == RenderQuestions(m.questions) + (RenderRecords(m.answers) + m.tail)
  {
    assert message[..12] == Words(Header(m));
    HeaderIsRead(m, message);
  }

  lemma BodyIsRead(qs: seq<Question>, rs: seq<Record>, tail: Bytes, body: Bytes)
    requires QuestionsOk(qs) && RecordsOk(rs) && body == RenderQuestions(qs) + (RenderRecords(rs) + tail)
    ensures ReadMany(ReadQuestion, body, |qs|) == Some((RenderRecords(rs) + tail, []))
    ensures ReadMany(ReadAnswer, RenderRecords(rs) + tail, |rs|) == Some((tail, Addresses(rs)))
  {
    QuestionsAreRead(qs, RenderRecords(rs) + tail);
    RecordsAreRead(rs, tail);
  }

  lemma ParseFromParts(message: Bytes, queryId: nat, s: Bytes, t: Bytes, found: seq<Bytes>, addresses: seq<Bytes>)
    requires HeaderOk(message, queryId)
    requires ReadMany(ReadQuestion, message[12..], Min(U16At(message, 4), 16)) == Some((s, found))
    requires ReadMany(ReadAnswer, s, Min(U16At(message, 6), 128)) == Some((t, addresses))
    ensures ParseResponse(message, queryId) == Ok((RcodeOf(U16At(message, 2)), Dedup(addresses)))
  {
  }

  lemma RecordsSplit(rs: seq<Record>, k: nat)
    requires RecordsOk(rs) && k <= |rs|
    ensures RecordsOk(rs[..k]) && RecordsOk(rs[k..])
    ensures RenderRecords(rs) == RenderRecords(rs[..k]) + RenderRecords(rs[k..])
  {
    assert RecordBlocks(rs[..k]) == RecordBlocks(rs)[..k] && RecordBlocks(rs[k..]) == RecordBlocks(rs)[k..];
    ConcatSplit(RecordBlocks(rs), k);
  }

  lemma QuestionsSplit(qs: seq<Question>, k: nat)
    requires QuestionsOk(qs) && k <= |qs|
    ensures QuestionsOk(qs[..k]) && QuestionsOk(qs[k..])
    ensures RenderQuestions(qs) == RenderQuestions(qs[..k]) + RenderQuestions(qs[k..])
  {
    assert QuestionBlocks(qs[..k]) == QuestionBlocks(qs)[..k] && QuestionBlocks(qs[k..]) == QuestionBlocks(qs)[k..];
    ConcatSplit(QuestionBlocks(qs), k);
  }

  lemma {:induction false} ConcatSplit(blocks: seq<Bytes>, k: nat)
    requires k <= |blocks|
    ensures Concat(blocks) == Concat(blocks[..k]) + Concat(blocks[k..])
  {
    if k == 0 {
      assert blocks[0..] == blocks;
    } else {
      ConcatSplit(blocks[1..], k - 1);
      assert blocks[1..][..k - 1] == blocks[..k][1..] && blocks[1..][k - 1..] == blocks[k..];
    }
  }

  /** Answers beyond the cap are not read: only the first 128 can give an address. */
  lemma ExtraAnswersAreIgnored(m: Message)
    requires MessageOk(m) && |m.questions| <= 16 && |m.answers| > 128
    ensures ParseResponse(RenderMessage(m), m.id) == Ok((RcodeOf(m.flags), Dedup(Addresses(m.answers[..128]))))
  {
    var message, first, rest := RenderMessage(m), m.answers[..128], m.answers[128..];
    MessageParts(m, message);
    RecordsSplit(m.answers, 128);
    var tail := RenderRecords(rest) + m.tail;
    assert RenderRecords(m.answers) + m.tail == RenderRecords(first) + tail;
    BodyIsRead(m.questions, first, tail, message[12..]);
    ParseFromParts(message, m.id, RenderRecords(first) + tail, tail, [], Addresses(first));
  }

  /**
    Questions beyond the cap are not skipped but taken for the first answers: the parser looks
    for answers behind the 16th question.
   */
  lemma ExtraQuestionsAreReadAsAnswers(m: Message)
    requires MessageOk(m) && |m.questions| > 16
    ensures var behind := RenderQuestions(m.questions[16..]) + (RenderRecords(m.answers) + m.tail);
            ParseResponse(RenderMessage(m), m.id) ==
              match ReadMany(ReadAnswer, behind, if |m.answers| < 128 then |m.answers| else 128)
              case None => Err(Invalid)
              case Some((_, addresses)) => Ok((RcodeOf(m.flags), Dedup(addresses)))
  {
    var message := RenderMessage(m);
    MessageParts(m, message);
    QuestionsSplit(m.questions, 16);
    var behind := RenderQuestions(m.questions[16..]) + (RenderRecords(m.answers) + m.tail);
    assert message[12..] == RenderQuestions(m.questions[..16]) + behind;
    QuestionsAreRead(m.questions[..16], behind);
  }

  /** Completeness: parsing a well-formed response returns its code and its addresses, deduplicated in order. */
  lemma WellFormedResponsesParse(m: Message)
    requires MessageOk(m) && WithinCaps(m)
    ensures ParseResponse(RenderMessage(m), m.id) == Ok((RcodeOf(m.flags), Dedup(Addresses(m.answers))))
  {
    var message := RenderMessage(m);
    MessageParts(m, message);
    BodyIsRead(m.questions, m.answers, m.tail, message[12..]);
    ParseFromParts(message, m.id, RenderRecords(m.answers) + m.tail, m.tail, [], Addresses(m.answers));
  }

  lemma ReadIsQuestion(s: Bytes) returns (q: Question)
    requires ReadQuestion(s).Some?
    ensures QuestionOk(q) && s == RenderQuestion(q) + ReadQuestion(s).value.0
  {
    var name := SkippedIsName(s, 0);
    var t := SkipName(s, 0).value;
    q := Question(name, U16At(t, 0), U16At(t, 2));
    TakeTwoWords(t);
  }

  lemma TakeTwoWords(t: Bytes)
    requires |t| >= 4
    ensures t == Words([U16At(t, 0), U16At(t, 2)]) + t[4..]
  {
    var words := [U16At(t, 0), U16At(t, 2)];
    assert U16At(t, 2 * 0) == words[0] && U16At(t, 2 * 1) == words[1];
    WordsRead(words, t);
    assert t == t[..4] + t[4..];
  }

  lemma ReadIsFields(t: Bytes) returns (r: Record)
    requires ReadFields(t).Some?
    ensures forall name :: NameOk(name) ==> RecordOk(r.(name := name))
    ensures RecordOk(r) && t == Words(Fields(r)) + r.data + ReadFields(t).value.0
  {
    var high, low, length := U16At(t, 4), U16At(t, 6), U16At(t, 8);
    r := Record(Name([], Root), U16At(t, 0), U16At(t, 2), high * 0x10000 + low, t[10..10 + length]);
    var words := Fields(r);
    assert words == [U16At(t, 0), U16At(t, 2), high, low, length];
    assert U16At(t, 2 * 0) == words[0] && U16At(t, 2 * 1) == words[1] && U16At(t, 2 * 2) == words[2]
        && U16At(t, 2 * 3) == words[3] && U16At(t, 2 * 4) == words[4];
    WordsRead(words, t);
    assert t == t[..10] + t[10..10 + length] + t[10 + length..];
  }

  lemma ReadIsRecord(s: Bytes) returns (r: Record)
    requires ReadAnswer(s).Some?
    ensures RecordOk(r) && s == RenderRecord(r) + ReadAnswer(s).value.0
  {
    var name := SkippedIsName(s, 0);
    var fields := ReadIsFields(SkipName(s, 0).value);
    r := fields.(name := name);
    assert Fields(r) == Fields(fields);
  }

  /** The positions a successful run of reads goes through. */
  lemma {:induction false} ReadManyStops(read: Bytes -> Read, s: Bytes, n: nat) returns (stops: seq<Bytes>)
    requires ReadMany(read, s, n).Some?
    ensures |stops| == n + 1 && stops[0] == s && stops[n] == ReadMany(read, s, n).value.0
    ensures forall i :: 0 <= i < n ==> read(stops[i]).Some? && read(stops[i]).value.0 == stops[i + 1]
    decreases n
  {
    if n == 0 {
      stops := [s];
    } else {
      var more := ReadManyStops(read, read(s).value.0, n - 1);
      stops := [s] + more;
    }
  }

  lemma {:induction false} StopsConcat(stops: seq<Bytes>, blocks: seq<Bytes>)
    requires |stops| == |blocks| + 1
    requires forall i :: 0 <= i < |blocks| ==> stops[i] == blocks[i] + stops[i + 1]
    ensures stops[0] == Concat(blocks) + stops[|blocks|]
    decreases |blocks|
  {
    if blocks != [] {
      StopsConcat(stops[1..], blocks[1..]);
      assert stops[0] == blocks[0] + (Concat(blocks[1..]) + stops[|blocks|]);
    }
  }

  lemma ReadAreQuestions(s: Bytes, n: nat) returns (qs: seq<Question>)
    requires ReadMany(ReadQuestion, s, n).Some?
    ensures |qs| == n && QuestionsOk(qs) && s == RenderQuestions(qs) + ReadMany(ReadQuestion, s, n).value.0
  {
    var stops := ReadManyStops(ReadQuestion, s, n);
    qs := [];
    for k := 0 to n
      invariant |qs| == k
      invariant forall i :: 0 <= i < k ==> QuestionOk(qs[i]) && stops[i] == RenderQuestion(qs[i]) + stops[i + 1]
    {
      assert ReadQuestion(stops[k]).Some?;
      var q := ReadIsQuestion(stops[k]);
      qs := qs + [q];
    }
    StopsConcat(stops, QuestionBlocks(qs));
  }

  lemma ReadAreRecords(s: Bytes, n: nat) returns (rs: seq<Record>)
    requires ReadMany(ReadAnswer, s, n).Some?
    ensures |rs| == n && RecordsOk(rs) && s == RenderRecords(rs) + ReadMany(ReadAnswer, s, n).value.0
  {
    var stops := ReadManyStops(ReadAnswer, s, n);
    var blocks: seq<Bytes> := [];
    rs := [];
    for k := 0 to n
      invariant |rs| == |blocks| == k && RecordsOk(rs) && RecordBlocks(rs) == blocks
      invariant forall i :: 0 <= i < k ==> stops[i] == blocks[i] + stops[i + 1]
    {
      assert ReadAnswer(stops[k]).Some?;
      var r := ReadIsRecord(stops[k]);
      RecordsPush(rs, r);
      rs, blocks := rs + [r], blocks + [RenderRecord(r)];
    }
    StopsConcat(stops, blocks);
  }

  lemma RecordsPush(rs: seq<Record>, r: Record)
    requires RecordsOk(rs) && RecordOk(r)
    ensures RecordsOk(rs + [r]) && RecordBlocks(rs + [r]) == RecordBlocks(rs) + [RenderRecord(r)]
  {
  }

  /** The message behind the header, taken apart. */
  lemma ReadIsBody(body: Bytes, questions: nat, answers: nat) returns (qs: seq<Question>, rs: seq<Record>, tail: Bytes)
    requires ReadMany(ReadQuestion, body, questions).Some?
    requires ReadMany(ReadAnswer, ReadMany(ReadQuestion, body, questions).value.0, answers).Some?
    ensures |qs| == questions && QuestionsOk(qs) && |rs| == answers && RecordsOk(rs)
    ensures body == RenderQuestions(qs) + (RenderRecords(rs) + tail)
  {
    qs := ReadAreQuestions(body, questions);
    var s := ReadMany(ReadQuestion, body, questions).value.0;
    rs := ReadAreRecords(s, answers);
    tail := ReadMany(ReadAnswer, s, answers).value.0;
  }

  /** A header and a body that fit make a well-formed message. */
  lemma Assemble(message: Bytes, queryId: nat, qs: seq<Question>, rs: seq<Record>, tail: Bytes) returns (m: Message)
    requires HeaderOk(message, queryId) && QuestionsOk(qs) && RecordsOk(rs)
    requires U16At(message, 4) == |qs| <= 16 && U16At(message, 6) == |rs| <= 128
    requires message[12..] == RenderQuestions(qs) + (RenderRecords(rs) + tail)
    ensures MessageOk(m) && WithinCaps(m) && m.id == queryId && RenderMessage(m) == message
  {
    m := Message(queryId, U16At(message, 2), qs, rs, U16At(message, 8), U16At(message, 10), tail);
    HeaderIsRead(m, message);
    assert message == message[..12] + message[12..];
  }

  lemma ParsedParts(message: Bytes, queryId: nat)
    requires ParseResponse(message, queryId).Ok?
    requires U16At(message, 4) <= 16 && U16At(message, 6) <= 128
    ensures HeaderOk(message, queryId) && ReadMany(ReadQuestion, message[12..], U16At(message, 4)).Some?
    ensures var questions := ReadMany(ReadQuestion, message[12..], U16At(message, 4));
            ReadMany(ReadAnswer, questions.value.0, U16At(message, 6)).Some?
  {
    assert Min(U16At(message, 4), 16) == U16At(message, 4) && Min(U16At(message, 6), 128) == U16At(message, 6);
  }

  function Repeated(part: Bytes, n: nat): seq<Bytes> {
    if n == 0 then [] else [part] + Repeated(part, n - 1)
  }

  lemma {:induction false} RepeatedLabels(part: Bytes, n: nat)
    requires |part| == 63
    ensures |Repeated(part, n)| == n && LabelsOk(Repeated(part, n)) && |RenderLabels(Repeated(part, n))| == 64 * n
  {
    if n > 0 {
      RepeatedLabels(part, n - 1);
      assert Repeated(part, n)[1..] == Repeated(part, n - 1);
    }
  }

  /**
    Soundness is against names that are only limited to 127 labels: names of up to 8129 bytes
    are accepted, although section 2.3.4 of RFC 1035 limits them to 255 octets.
   */
  lemma OverlongNamesAreAccepted(part: Bytes, n: nat, m: Message)
    requires |part| == 63 && 4 <= n <= 127
    requires MessageOk(m.(questions := [])) && |m.answers| <= 128
    requires m.questions == [Question(Name(Repeated(part, n), Root), 1, 1)]
    ensures MessageOk(m) && |RenderName(m.questions[0].name)| == 64 * n + 1 > 255
    ensures ParseResponse(RenderMessage(m), m.id).Ok?
  {
    RepeatedLabels(part, n);
    WellFormedResponsesParse(m);
  }

  /** Soundness: whatever is accepted within the caps is a well-formed response to this query. */
  lemma ParsedResponsesAreWellFormed(message: Bytes, queryId: nat) returns (m: Message)
    requires ParseResponse(message, queryId).Ok?
    requires U16At(message, 4) <= 16 && U16At(message, 6) <= 128
    ensures MessageOk(m) && WithinCaps(m) && m.id == queryId && RenderMessage(m) == message
  {
    ParsedParts(message, queryId);
    var qs, rs, tail := ReadIsBody(message[12..], U16At(message, 4), U16At(message, 6));
    m := Assemble(message, queryId, qs, rs, tail);
  }
}
