/**
  The addresses a DNS response hands out (answerIPs, serviceBindingHints and
  isSinkholeResponse in dnswire.go): section 4.1 of RFC 1035, sections 2.2 and 7.3
  of RFC 9460. An address is kept as a value; its text form is injective.
 */
module DnsMessages {
  import opened Wrappers
  import opened Lists
  import opened Splitting
  import opened DnsNames

  datatype IP = V4(bytes: Text) | V6(bytes: Text)

  // ---------- what is written ----------

  /** One SVCB parameter. */
  datatype Param = Param(key: nat, value: Text)

  datatype Data =
    | Address4(bytes: Text)
    | Address6(bytes: Text)
    | Service(https: bool, priority: nat, target: NameForm, params: seq<Param>)
    | Garbled(https: bool, bytes: Text)
    | Opaque(typ: nat, bytes: Text)

  datatype Resource = Resource(name: NameForm, data: Data)

  /** The type numbers of section 3.2.2 of RFC 1035, RFC 3596 and section 14.1 of RFC 9460. */
  function TypeOf(d: Data): nat {
    match d
    case Address4(_) => 1
    case Address6(_) => 28
    case Service(https, _, _, _) => if https then 65 else 64
    case Garbled(https, _) => if https then 65 else 64
    case Opaque(typ, _) => typ
  }

  /** Sixteen bytes as an address: after ten zero bytes and two of all ones the last four are an IPv4 address. */
  function SixteenBytes(b: Text): IP
    requires |b| == 16
  {
    if (forall i :: 0 <= i < 10 ==> b[i] == 0) && b[10] == 255 && b[11] == 255
    then V4([b[12], b[13], b[14], b[15]])
    else V6(b)
  }

  /** The i-th group of four bytes as an address. */
  function FourAt(b: Text, i: nat): IP
    requires 4 * i + 4 <= |b|
  {
    V4([b[4 * i], b[4 * i + 1], b[4 * i + 2], b[4 * i + 3]])
  }

  /** The i-th group of sixteen bytes as an address. */
  function SixteenAt(b: Text, i: nat): IP
    requires 16 * i + 16 <= |b|
  {
    SixteenBytes(b[16 * i..16 * i + 16])
  }

  /** Every four bytes are an IPv4 address. */
  function Fours(b: Text): seq<IP> {
    seq(|b| / 4, i requires 0 <= i < |b| / 4 => FourAt(b, i))
  }

  /** Every sixteen bytes are an IPv6 address. */
  function Sixteens(b: Text): seq<IP> {
    seq(|b| / 16, i requires 0 <= i < |b| / 16 => SixteenAt(b, i))
  }

  /** The hints of a parameter: key 4 is ipv4hint, key 6 is ipv6hint. */
  function HintsOf(p: Param): seq<IP> {
    if p.key == 4 then Fours(p.value) else if p.key == 6 then Sixteens(p.value) else []
  }

  function Hints(params: seq<Param>): seq<IP> {
    if params == [] then [] else HintsOf(params[0]) + Hints(params[1..])
  }

  /** Address hints come in whole addresses, at least one. */
  predicate WholeHints(p: Param) {
    && (p.key == 4 ==> |p.value| > 0 && |p.value| % 4 == 0)
    && (p.key == 6 ==> |p.value| > 0 && |p.value| % 16 == 0)
  }

  /** The parameters stand in rising order of their keys, above `lastKey`. */
  predicate WellFormed(params: seq<Param>, lastKey: int) {
    params == [] || (WholeHints(params[0]) && params[0].key > lastKey && WellFormed(params[1..], params[0].key))
  }

  predicate ParamsAt(msg: Text, pos: nat, end: nat, params: seq<Param>)
    decreases |params|
  {
    if params == [] then pos == end
    else
      var p := params[0];
      && pos + 4 + |p.value| <= end <= |msg|
      && U16(msg, pos) == p.key && U16(msg, pos + 2) == |p.value|
      && msg[pos + 4..pos + 4 + |p.value|] == p.value
      && ParamsAt(msg, pos + 4 + |p.value|, end, params[1..])
  }

  /** A service binding: priority, target and parameters. */
  predicate ServiceAt(msg: Text, start: nat, end: nat, priority: nat, target: NameForm, params: seq<Param>) {
    && start + 3 <= end <= |msg| && U16(msg, start) == priority
    && At(msg, start + 2, target) && Hops(target) <= 16 && End(start + 2, target) <= end
    && WellFormed(params, -1) && ParamsAt(msg, End(start + 2, target), end, params)
  }

  ghost predicate DataAt(msg: Text, start: nat, end: nat, d: Data) {
    && start <= end <= |msg|
    && match d
       case Address4(b) => |b| == 4 && msg[start..end] == b
       case Address6(b) => |b| == 16 && msg[start..end] == b
       case Service(_, priority, target, params) => ServiceAt(msg, start, end, priority, target, params)
       case Garbled(_, b) =>
         msg[start..end] == b && forall priority, target, params :: !ServiceAt(msg, start, end, priority, target, params)
       case Opaque(typ, b) =>
         && msg[start..end] == b && typ != 64 && typ != 65
         && !(typ == 1 && |b| == 4) && !(typ == 28 && |b| == 16)
  }

  /** The resource is written from `pos` to `end`; class and TTL may be anything. */
  ghost predicate ResourceAt(msg: Text, pos: nat, end: nat, r: Resource) {
    && At(msg, pos, r.name) && Hops(r.name) <= 16
    && var p := End(pos, r.name);
       p + 10 <= |msg| && U16(msg, p) == TypeOf(r.data)
       && end == p + 10 + U16(msg, p + 8) && DataAt(msg, p + 10, end, r.data)
  }

  /** The resources are written one after the other. */
  ghost predicate ResourcesAt(msg: Text, pos: nat, ends: seq<nat>, rs: seq<Resource>)
    decreases |rs|
  {
    |ends| == |rs| &&
    (rs != [] ==> ResourceAt(msg, pos, ends[0], rs[0]) && ResourcesAt(msg, ends[0], ends[1..], rs[1..]))
  }

  /** The question names, each followed by type and class. */
  predicate QuestionsAt(msg: Text, pos: nat, names: seq<NameForm>, end: nat)
    decreases |names|
  {
    if names == [] then pos == end
    else
      && At(msg, pos, names[0]) && Hops(names[0]) <= 16
      && End(pos, names[0]) + 4 <= |msg|
      && QuestionsAt(msg, End(pos, names[0]) + 4, names[1..], end)
  }

  /** A response with these questions and answers; authority and additional records may follow. */
  ghost predicate ResponseAt(msg: Text, questions: seq<NameForm>, end: nat, ends: seq<nat>, answers: seq<Resource>) {
    && 12 <= |msg| && U16(msg, 4) == |questions| && U16(msg, 6) == |answers|
    && QuestionsAt(msg, 12, questions, end) && ResourcesAt(msg, end, ends, answers)
  }

  /** The addresses an answer hands out; in alias mode (priority 0) a service has none. */
  function Addresses(d: Data): seq<IP> {
    match d
    case Address4(b) => [V4(b)]
    case Address6(b) => if |b| == 16 then [SixteenBytes(b)] else []
    case Service(_, priority, _, params) => if priority == 0 then [] else Hints(params)
    case Garbled(_, _) => []
    case Opaque(_, _) => []
  }

  function AllAddresses(rs: seq<Resource>): seq<IP> {
    if rs == [] then [] else Addresses(rs[0].data) + AllAddresses(rs[1..])
  }

  // ---------- service hints ----------

  const HEADER: nat := 12
  const TYPE_A := 1
  const TYPE_AAAA := 28
  const TYPE_SVCB := 64
  const TYPE_HTTPS := 65
  const KEY_IPV4HINT := 4
  const KEY_IPV6HINT := 6

  const MAPPED: Text := [0, 0, 0, 0, 0, 0, 0, 0, 0, 0, 255, 255]

  /** The address in sixteen bytes, as net.IP prints it. */
  function CanonicalV6(b: Text): IP
    requires |b| == 16
  {
    if b[..12] == MAPPED then V4(b[12..]) else V6(b)
  }

  /** The first n IPv4 addresses of a value. */
  function HintsV4(b: Text, n: nat): seq<IP>
    requires 4 * n <= |b|
  {
    if n == 0 then [] else HintsV4(b, n - 1) + [V4(b[4 * (n - 1)..4 * n])]
  }

  /** The first n IPv6 addresses of a value. */
  function HintsV6(b: Text, n: nat): seq<IP>
    requires 16 * n <= |b|
  {
    if n == 0 then [] else HintsV6(b, n - 1) + [CanonicalV6(b[16 * (n - 1)..16 * n])]
  }

  predicate ProperParam(p: Param) {
    && (p.key == KEY_IPV4HINT ==> p.value != [] && |p.value| % 4 == 0)
    && (p.key == KEY_IPV6HINT ==> p.value != [] && |p.value| % 16 == 0)
  }

  function ParamHints(p: Param): seq<IP>
    requires ProperParam(p)
  {
    if p.key == KEY_IPV4HINT then HintsV4(p.value, |p.value| / 4)
    else if p.key == KEY_IPV6HINT then HintsV6(p.value, |p.value| / 16)
    else []
  }

  /** The hints read from a parameter list, or None when it is malformed. */
  function ReadHints(msg: Text, pos: nat, end: nat, lastKey: int): Option<seq<IP>>
    requires end <= |msg|
    decreases |msg| - pos
  {
    if pos >= end then Some([])
    else if end - pos < 4 then None
    else
      var key, length := U16(msg, pos), U16(msg, pos + 2);
      if key <= lastKey || length > end - (pos + 4) then None
      else
        var p := Param(key, msg[pos + 4..pos + 4 + length]);
        if !ProperParam(p) then None
        else
          match ReadHints(msg, pos + 4 + length, end, key)
          case None => None
          case Some(more) => Some(ParamHints(p) + more)
  }

  function ServiceHints(msg: Text, start: nat, end: nat): seq<IP> {
    if start > end || end > |msg| || end - start < 3 || U16(msg, start) == 0 then []
    else
      match ReadLabels(msg, start + 2, 0)
      case None => []
      case Some(r) =>
        if r.end > end then []
        else match ReadHints(msg, r.end, end, -1) case None => [] case Some(ips) => ips
  }

  lemma {:induction false} HintsV4Are(b: Text, n: nat)
    requires 4 * n <= |b|
    ensures |HintsV4(b, n)| == n
    ensures forall i :: 0 <= i < n ==> HintsV4(b, n)[i] == FourAt(b, i)
  {
    if n > 0 {
      HintsV4Are(b, n - 1);
      var i := n - 1;
      assert b[4 * i..4 * n] == [b[4 * i], b[4 * i + 1], b[4 * i + 2], b[4 * i + 3]];
    }
  }

  /** All whole addresses of the value are read, each from its own four bytes. */
  lemma FoursAreRead(b: Text)
    ensures HintsV4(b, |b| / 4) == Fours(b)
  {
    hide FourAt, HintsV4;
    var n := |b| / 4;
    HintsV4Are(b, n);
    assert |Fours(b)| == n && forall i :: 0 <= i < n ==> Fours(b)[i] == FourAt(b, i);
  }

  lemma MappedAddress(b: Text)
    requires |b| == 16
    ensures CanonicalV6(b) == SixteenBytes(b)
  {
    assert b[..12] == MAPPED <==> forall i :: 0 <= i < 12 ==> b[i] == MAPPED[i];
    assert b[12..] == [b[12], b[13], b[14], b[15]];
  }

  lemma {:induction false} HintsV6Are(b: Text, n: nat)
    requires 16 * n <= |b|
    ensures |HintsV6(b, n)| == n
    ensures forall i :: 0 <= i < n ==> HintsV6(b, n)[i] == SixteenAt(b, i)
  {
    hide CanonicalV6, SixteenBytes;
    if n > 0 {
      HintsV6Are(b, n - 1);
      MappedAddress(b[16 * (n - 1)..16 * n]);
    }
  }

  lemma SixteensAreRead(b: Text)
    ensures HintsV6(b, |b| / 16) == Sixteens(b)
  {
    hide SixteenAt, HintsV6;
    var n := |b| / 16;
    HintsV6Are(b, n);
    assert |Sixteens(b)| == n && forall i :: 0 <= i < n ==> Sixteens(b)[i] == SixteenAt(b, i);
  }

  /** What the reader takes for a hint is what the parameter says. */
  lemma ParamIsReadAsWritten(p: Param)
    ensures ProperParam(p) <==> WholeHints(p)
    ensures ProperParam(p) ==> ParamHints(p) == HintsOf(p)
  {
    hide HintsV4, HintsV6, Fours, Sixteens;
    FoursAreRead(p.value);
    SixteensAreRead(p.value);
  }

  lemma OneMoreV4(b: Text, n: nat)
    requires 4 * n + 4 <= |b|
    ensures HintsV4(b, 0) == [] && HintsV4(b, n + 1) == HintsV4(b, n) + [V4(b[4 * n..4 * n + 4])]
  {
  }

  method ReadHintsV4(msg: Text, pos: nat, length: nat) returns (out: seq<IP>)
    requires pos + length <= |msg| && length % 4 == 0
    ensures out == HintsV4(msg[pos..pos + length], length / 4)
    ensures out == Fours(msg[pos..pos + length])
  {
    ghost var value := msg[pos..pos + length];
    FoursAreRead(value);
    hide Fours, HintsV4;
    out := [];
    var i := pos;
    ghost var n, count := 0, length / 4;
    assert length == 4 * count;
    while i < pos + length
      invariant i == pos + 4 * n && n <= count
      invariant out == HintsV4(value, n)
    {
      OneMoreV4(value, n);
      SliceOfSlice(msg, pos, pos + length, 4 * n, 4 * n + 4);
      out := out + [V4(msg[i..i + 4])];
      i := i + 4;
      n := n + 1;
    }
  }

  lemma OneMoreV6(b: Text, n: nat)
    requires 16 * n + 16 <= |b|
    ensures HintsV6(b, 0) == [] && HintsV6(b, n + 1) == HintsV6(b, n) + [CanonicalV6(b[16 * n..16 * n + 16])]
  {
  }

  method ReadHintsV6(msg: Text, pos: nat, length: nat) returns (out: seq<IP>)
    requires pos + length <= |msg| && length % 16 == 0
    ensures out == HintsV6(msg[pos..pos + length], length / 16)
    ensures out == Sixteens(msg[pos..pos + length])
  {
    ghost var value := msg[pos..pos + length];
    SixteensAreRead(value);
    hide Sixteens, HintsV6, CanonicalV6;
    out := [];
    var i := pos;
    ghost var n, count := 0, length / 16;
    assert length == 16 * count;
    while i < pos + length
      invariant i == pos + 16 * n && n <= count
      invariant out == HintsV6(value, n)
    {
      OneMoreV6(value, n);
      SliceOfSlice(msg, pos, pos + length, 16 * n, 16 * n + 16);
      out := out + [CanonicalV6(msg[i..i + 16])];
      i := i + 16;
      n := n + 1;
    }
  }

  /** What the hints read so far and those still to read come to. */
  predicate HintsResume(whole: Option<seq<IP>>, out: seq<IP>, tail: Option<seq<IP>>) {
    match tail
    case None => whole.None?
    case Some(more) => whole == Some(out + more)
  }

  lemma HintsStep(whole: Option<seq<IP>>, out: seq<IP>, msg: Text, pos: nat, end: nat, lastKey: int)
    requires end <= |msg| && HintsResume(whole, out, ReadHints(msg, pos, end, lastKey))
    ensures pos >= end ==> whole == Some(out)
    ensures pos < end && end - pos < 4 ==> whole.None?
    ensures pos < end && end - pos >= 4 ==>
              var key, length := U16(msg, pos), U16(msg, pos + 2);
              && (key <= lastKey || length > end - (pos + 4) ==> whole.None?)
              && (key > lastKey && length <= end - (pos + 4) ==>
                    var p := Param(key, msg[pos + 4..pos + 4 + length]);
                    && (!ProperParam(p) ==> whole.None?)
                    && (ProperParam(p) ==> HintsResume(whole, out + ParamHints(p), ReadHints(msg, pos + 4 + length, end, key))))
  {
    hide ParamHints, ProperParam, U16;
    if pos >= end {
      assert out + [] == out;
    } else if end - pos >= 4 {
      var key, length := U16(msg, pos), U16(msg, pos + 2);
      if key > lastKey && length <= end - (pos + 4) {
        var p := Param(key, msg[pos + 4..pos + 4 + length]);
        var tail := ReadHints(msg, pos + 4 + length, end, key);
        if ProperParam(p) && tail.Some? {
          Assoc(out, ParamHints(p), tail.value);
        }
      }
    }
  }

  method ServiceBindingHints(msg: Text, start: nat, end: nat) returns (out: seq<IP>)
    ensures out == ServiceHints(msg, start, end)
  {
    hide U16, ReadLabels, NameOf, ReadHints, HintsResume, HintsV4, HintsV6;
    if start > end || end > |msg| || end - start < 3 || U16(msg, start) == 0 {
      return [];
    }
    var name := ReadName(msg, start + 2);
    if name.NoName? || name.next > end {
      return [];
    }
    var pos := name.next;
    var lastKey: int := -1;
    out := [];
    ghost var whole := ReadHints(msg, pos, end, -1);
    HintsStart(whole);
    while pos < end
      invariant HintsResume(whole, out, ReadHints(msg, pos, end, lastKey))
      decreases end - pos
    {
      HintsStep(whole, out, msg, pos, end, lastKey);
      if end - pos < 4 {
        return [];
      }
      var key, length := U16(msg, pos), U16(msg, pos + 2);
      pos := pos + 4;
      if key <= lastKey || length > end - pos {
        return [];
      }
      lastKey := key;
      if key == KEY_IPV4HINT {
        if length == 0 || length % 4 != 0 {
          return [];
        }
        var more := ReadHintsV4(msg, pos, length);
        out := out + more;
      } else if key == KEY_IPV6HINT {
        if length == 0 || length % 16 != 0 {
          return [];
        }
        var more := ReadHintsV6(msg, pos, length);
        out := out + more;
      } else {
        assert out + [] == out;
      }
      pos := pos + length;
    }
    HintsStep(whole, out, msg, pos, end, lastKey);
  }

  lemma HintsStart(whole: Option<seq<IP>>)
    ensures HintsResume(whole, [], whole)
  {
    assert whole.Some? ==> [] + whole.value == whole.value;
  }

  // ---------- answers ----------

  /** One record: its type and where its data lies. */
  datatype Located = Located(typ: nat, start: nat, end: nat)

  function ReadRecord(msg: Text, pos: nat): Option<Located> {
    match ReadLabels(msg, pos, 0)
    case None => None
    case Some(r) =>
      if r.end + 10 > |msg| || r.end + 10 + U16(msg, r.end + 8) > |msg| then None
      else Some(Located(U16(msg, r.end), r.end + 10, r.end + 10 + U16(msg, r.end + 8)))
  }

  /** Up to n records, as far as they can be read. */
  function ReadRecords(msg: Text, pos: nat, n: nat): seq<Located>
    decreases n
  {
    if n == 0 then []
    else
      match ReadRecord(msg, pos)
      case None => []
      case Some(r) => [r] + ReadRecords(msg, r.end, n - 1)
  }

  function LocatedAddresses(msg: Text, r: Located): seq<IP> {
    if r.start > r.end || r.end > |msg| then []
    else if r.typ == TYPE_A && r.end - r.start == 4 then [V4(msg[r.start..r.end])]
    else if r.typ == TYPE_AAAA && r.end - r.start == 16 then [CanonicalV6(msg[r.start..r.end])]
    else if r.typ == TYPE_SVCB || r.typ == TYPE_HTTPS then ServiceHints(msg, r.start, r.end)
    else []
  }

  function RecordAddresses(msg: Text, rs: seq<Located>): seq<IP> {
    if rs == [] then [] else LocatedAddresses(msg, rs[0]) + RecordAddresses(msg, rs[1..])
  }

  function SkipQuestions(msg: Text, pos: nat, n: nat): Option<nat>
    decreases n
  {
    if n == 0 then Some(pos)
    else
      match ReadLabels(msg, pos, 0)
      case None => None
      case Some(r) => if r.end + 4 > |msg| then None else SkipQuestions(msg, r.end + 4, n - 1)
  }

  /** The addresses of the answers that can be read, in order. */
  function AnswerAddresses(msg: Text): seq<IP> {
    if |msg| < HEADER then []
    else
      match SkipQuestions(msg, HEADER, U16(msg, 4))
      case None => []
      case Some(pos) => RecordAddresses(msg, ReadRecords(msg, pos, U16(msg, 6)))
  }

  /** Adding addresses one by one, each if it is new. */
  method AddAll(out: seq<IP>, ghost all: seq<IP>, more: seq<IP>) returns (r: seq<IP>)
    requires out == Dedup(all)
    ensures r == Dedup(all + more)
  {
    hide Dedup;
    r := out;
    assert all + more[..0] == all;
    for i := 0 to |more|
      invariant r == Dedup(all + more[..i])
    {
      assert all + more[..i + 1] == (all + more[..i]) + [more[i]];
      DedupKeepsElements(all + more[..i]);
      DedupSnoc(all + more[..i], more[i]);
      if more[i] !in r {
        r := r + [more[i]];
      }
    }
    assert all + more[..|more|] == all + more;
  }

  /** answerIPs: of a well-formed response, what its answers hand out, each address where it first appears. */
  method AnswerIPs(msg: Text) returns (out: seq<IP>)
    ensures out == Dedup(AnswerAddresses(msg))
    ensures forall questions, end, ends, answers :: ResponseAt(msg, questions, end, ends, answers) ==> out == Dedup(AllAddresses(answers))
  {
    forall questions, end, ends, answers | ResponseAt(msg, questions, end, ends, answers)
      ensures AnswerAddresses(msg) == AllAddresses(answers)
    {
      ResponseHandsOutItsAddresses(msg, questions, end, ends, answers);
    }
    out := CollectAnswers(msg);
  }

  method CollectAnswers(msg: Text) returns (out: seq<IP>)
    ensures out == Dedup(AnswerAddresses(msg))
  {
    hide U16, ReadLabels, NameOf, Dedup, ServiceHints, LocatedAddresses, ReadRecord, ReadRecords, RecordAddresses;
    EmptyDedup();
    if |msg| < HEADER {
      return [];
    }
    var qd: nat, an: nat := U16(msg, 4), U16(msg, 6);
    var pos: nat := HEADER;
    for i := 0 to qd
      invariant SkipQuestions(msg, HEADER, qd) == SkipQuestions(msg, pos, qd - i)
    {
      var name := ReadName(msg, pos);
      if name.NoName? {
        return [];
      }
      pos := name.next + 4;
      if pos > |msg| {
        return [];
      }
    }
    out := [];
    ghost var all: seq<IP> := [];
    ghost var whole := RecordAddresses(msg, ReadRecords(msg, pos, an));
    assert AnswerAddresses(msg) == whole;
    assert all + whole == whole;
    for i := 0 to an
      invariant out == Dedup(all)
      invariant whole == all + RecordAddresses(msg, ReadRecords(msg, pos, an - i))
    {
      var record := LocateRecord(msg, pos);
      RecordStep(msg, pos, an - i);
      if record.None? {
        assert all + [] == all;
        return;
      }
      var more := AddressesOfRecord(msg, record.value);
      out := AddAll(out, all, more);
      Assoc(all, more, RecordAddresses(msg, ReadRecords(msg, record.value.end, an - i - 1)));
      all := all + more;
      pos := record.value.end;
    }
    NoMoreRecords(msg, pos);
    assert all + [] == all;
  }

  lemma DedupOfNothing(ips: seq<IP>)
    ensures Dedup(ips) == [] <==> ips == []
  {
    DedupKeepsElements(ips);
    if ips != [] {
      assert ips[0] in ips;
    }
  }

  lemma EmptyDedup()
    ensures Dedup<IP>([]) == []
  {
  }

  lemma NoMoreRecords(msg: Text, pos: nat)
    ensures RecordAddresses(msg, ReadRecords(msg, pos, 0)) == []
  {
  }

  lemma RecordStep(msg: Text, pos: nat, n: nat)
    requires n > 0
    ensures RecordAddresses(msg, ReadRecords(msg, pos, n)) ==
            match ReadRecord(msg, pos)
            case None => []
            case Some(r) => LocatedAddresses(msg, r) + RecordAddresses(msg, ReadRecords(msg, r.end, n - 1))
  {
    hide ReadRecord, LocatedAddresses;
  }

  method LocateRecord(msg: Text, pos: nat) returns (r: Option<Located>)
    ensures r == ReadRecord(msg, pos)
    ensures r.Some? ==> r.value.start <= r.value.end <= |msg|
  {
    hide U16, ReadLabels, NameOf;
    var name := ReadName(msg, pos);
    if name.NoName? {
      return None;
    }
    var at := name.next;
    if at + 10 > |msg| {
      return None;
    }
    var typ, length := U16(msg, at), U16(msg, at + 8);
    at := at + 10;
    if at + length > |msg| {
      return None;
    }
    return Some(Located(typ, at, at + length));
  }

  method AddressesOfRecord(msg: Text, r: Located) returns (out: seq<IP>)
    requires r.start <= r.end <= |msg|
    ensures out == LocatedAddresses(msg, r)
  {
    hide ServiceHints;
    if r.typ == TYPE_A && r.end - r.start == 4 {
      out := [V4(msg[r.start..r.end])];
    } else if r.typ == TYPE_AAAA && r.end - r.start == 16 {
      out := [CanonicalV6(msg[r.start..r.end])];
    } else if r.typ == TYPE_SVCB || r.typ == TYPE_HTTPS {
      out := ServiceBindingHints(msg, r.start, r.end);
    } else {
      out := [];
    }
  }

  // ---------- what is written is what is read ----------

  lemma {:induction false} WrittenHintsAreRead(msg: Text, pos: nat, end: nat, params: seq<Param>, lastKey: int)
    requires end <= |msg| && ParamsAt(msg, pos, end, params) && WellFormed(params, lastKey)
    ensures ReadHints(msg, pos, end, lastKey) == Some(Hints(params))
    decreases |params|
  {
    hide ProperParam, ParamHints, HintsOf, WholeHints;
    if params != [] {
      var p := params[0];
      ParamIsReadAsWritten(p);
      WrittenHintsAreRead(msg, pos + 4 + |p.value|, end, params[1..], p.key);
      assert Param(U16(msg, pos), msg[pos + 4..pos + 4 + |p.value|]) == p;
    }
  }

  lemma FirstHintIsRead(msg: Text, pos: nat, end: nat, lastKey: int)
    requires pos < end <= |msg| && ReadHints(msg, pos, end, lastKey).Some?
    ensures end - pos >= 4
    ensures var key, length := U16(msg, pos), U16(msg, pos + 2);
            && key > lastKey && pos + 4 + length <= end
            && WholeHints(Param(key, msg[pos + 4..pos + 4 + length]))
            && ReadHints(msg, pos + 4 + length, end, key).Some?
  {
    hide U16, ProperParam, ParamHints, WholeHints;
    if end - pos >= 4 {
      var key, length := U16(msg, pos), U16(msg, pos + 2);
      if pos + 4 + length <= end {
        ParamIsReadAsWritten(Param(key, msg[pos + 4..pos + 4 + length]));
      }
    }
  }

  lemma FirstParamIsWritten(msg: Text, pos: nat, end: nat, lastKey: int, more: seq<Param>)
    requires pos + 4 <= end <= |msg| && pos + 4 + U16(msg, pos + 2) <= end && U16(msg, pos) > lastKey
    requires WholeHints(Param(U16(msg, pos), msg[pos + 4..pos + 4 + U16(msg, pos + 2)]))
    requires ParamsAt(msg, pos + 4 + U16(msg, pos + 2), end, more) && WellFormed(more, U16(msg, pos))
    ensures var params := [Param(U16(msg, pos), msg[pos + 4..pos + 4 + U16(msg, pos + 2)])] + more;
            ParamsAt(msg, pos, end, params) && WellFormed(params, lastKey)
  {
    hide U16, WholeHints;
    var params := [Param(U16(msg, pos), msg[pos + 4..pos + 4 + U16(msg, pos + 2)])] + more;
    assert params[1..] == more;
  }

  /** Whatever hints are read, they are written there. */
  lemma {:induction false} ReadHintsAreWritten(msg: Text, pos: nat, end: nat, lastKey: int) returns (params: seq<Param>)
    requires pos <= end <= |msg| && ReadHints(msg, pos, end, lastKey).Some?
    ensures ParamsAt(msg, pos, end, params) && WellFormed(params, lastKey)
    decreases end - pos
  {
    if pos == end {
      params := [];
    } else {
      FirstHintIsRead(msg, pos, end, lastKey);
      hide ReadHints, WholeHints, ParamsAt, WellFormed, U16;
      var key, length := U16(msg, pos), U16(msg, pos + 2);
      var more := ReadHintsAreWritten(msg, pos + 4 + length, end, key);
      FirstParamIsWritten(msg, pos, end, lastKey, more);
      params := [Param(key, msg[pos + 4..pos + 4 + length])] + more;
    }
  }

  lemma WrittenServiceIsRead(msg: Text, start: nat, end: nat, priority: nat, target: NameForm, params: seq<Param>)
    requires ServiceAt(msg, start, end, priority, target, params)
    ensures ServiceHints(msg, start, end) == if priority == 0 then [] else Hints(params)
  {
    hide ReadLabels, ReadHints, ParamsAt, At, Hints, U16, WellFormed;
    WrittenNamesAreRead(msg, start + 2, target, 0);
    WrittenHintsAreRead(msg, End(start + 2, target), end, params, -1);
  }

  lemma ReadServiceIsWritten(msg: Text, start: nat, end: nat) returns (target: NameForm, params: seq<Param>)
    requires start <= end <= |msg| && ServiceHints(msg, start, end) != []
    ensures start + 3 <= end && ServiceAt(msg, start, end, U16(msg, start), target, params)
  {
    hide ReadLabels, ReadHints, ParamsAt, At, WellFormed;
    target := ReadNamesAreWritten(msg, start + 2, 0);
    params := ReadHintsAreWritten(msg, End(start + 2, target), end, -1);
  }

  /** Where no service is written no hint is read. */
  lemma MalformedServiceHasNoHints(msg: Text, start: nat, end: nat)
    requires start <= end <= |msg|
    requires forall priority, target, params :: !ServiceAt(msg, start, end, priority, target, params)
    ensures ServiceHints(msg, start, end) == []
  {
    hide ServiceHints, ServiceAt;
    if ServiceHints(msg, start, end) != [] {
      var target, params := ReadServiceIsWritten(msg, start, end);
    }
  }

  lemma WrittenDataIsRead(msg: Text, start: nat, end: nat, d: Data)
    requires DataAt(msg, start, end, d)
    ensures LocatedAddresses(msg, Located(TypeOf(d), start, end)) == Addresses(d)
  {
    hide ServiceHints, ServiceAt, CanonicalV6, SixteenBytes, Hints;
    match d
    case Address4(_) =>
    case Address6(b) => MappedAddress(b);
    case Service(_, priority, target, params) => WrittenServiceIsRead(msg, start, end, priority, target, params);
    case Garbled(_, _) => MalformedServiceHasNoHints(msg, start, end);
    case Opaque(_, _) =>
  }

  lemma WrittenRecordIsRead(msg: Text, pos: nat, end: nat, r: Resource)
    requires ResourceAt(msg, pos, end, r)
    ensures var p := End(pos, r.name);
            ReadRecord(msg, pos) == Some(Located(TypeOf(r.data), p + 10, end)) && DataAt(msg, p + 10, end, r.data)
  {
    hide ReadLabels, U16, At;
    WrittenNamesAreRead(msg, pos, r.name, 0);
  }

  lemma {:induction false} WrittenRecordsAreRead(msg: Text, pos: nat, ends: seq<nat>, rs: seq<Resource>)
    requires ResourcesAt(msg, pos, ends, rs)
    ensures RecordAddresses(msg, ReadRecords(msg, pos, |rs|)) == AllAddresses(rs)
    decreases |rs|
  {
    hide ResourceAt, DataAt, ReadRecord, LocatedAddresses, ReadRecords, RecordAddresses, Addresses, TypeOf, End;
    NoMoreRecords(msg, pos);
    if rs != [] {
      WrittenRecordIsRead(msg, pos, ends[0], rs[0]);
      WrittenDataIsRead(msg, End(pos, rs[0].name) + 10, ends[0], rs[0].data);
      WrittenRecordsAreRead(msg, ends[0], ends[1..], rs[1..]);
      RecordStep(msg, pos, |rs|);
    }
  }

  lemma {:induction false} WrittenQuestionsAreSkipped(msg: Text, pos: nat, names: seq<NameForm>, end: nat)
    requires QuestionsAt(msg, pos, names, end)
    ensures SkipQuestions(msg, pos, |names|) == Some(end)
    decreases |names|
  {
    hide ReadLabels, At;
    if names != [] {
      WrittenNamesAreRead(msg, pos, names[0], 0);
      WrittenQuestionsAreSkipped(msg, End(pos, names[0]) + 4, names[1..], end);
    }
  }

  /**
    Of a well-formed response the addresses are exactly those its answers hand
    out, each once, in the order in which they first appear.
   */
  lemma ResponseHandsOutItsAddresses(msg: Text, questions: seq<NameForm>, end: nat, ends: seq<nat>, answers: seq<Resource>)
    requires ResponseAt(msg, questions, end, ends, answers)
    ensures AnswerAddresses(msg) == AllAddresses(answers)
    ensures NoDuplicates(Dedup(AnswerAddresses(msg)))
    ensures forall ip :: ip in Dedup(AnswerAddresses(msg)) <==> ip in AllAddresses(answers)
  {
    hide QuestionsAt, ResourcesAt, SkipQuestions, ReadRecords, RecordAddresses, U16, AllAddresses;
    WrittenQuestionsAreSkipped(msg, HEADER, questions, end);
    WrittenRecordsAreRead(msg, end, ends, answers);
    DedupKeepsElements(AnswerAddresses(msg));
    DedupHasNoDuplicates(AnswerAddresses(msg));
  }

  // ---------- any message at all ----------

  /** Where the next record would stand. */
  function After(pos: nat, ends: seq<nat>): nat {
    if ends == [] then pos else ends[|ends| - 1]
  }

  lemma DataIsSomething(msg: Text, start: nat, end: nat, typ: nat) returns (d: Data)
    requires start <= end <= |msg|
    ensures DataAt(msg, start, end, d) && TypeOf(d) == typ
  {
    hide ServiceAt;
    var b := msg[start..end];
    if typ == 64 || typ == 65 {
      if priority, target, params :| ServiceAt(msg, start, end, priority, target, params) {
        d := Service(typ == 65, priority, target, params);
      } else {
        d := Garbled(typ == 65, b);
      }
    } else if typ == 1 && |b| == 4 {
      d := Address4(b);
    } else if typ == 28 && |b| == 16 {
      d := Address6(b);
    } else {
      d := Opaque(typ, b);
    }
  }

  /** Whatever record is read, it is written there. */
  lemma ReadRecordIsWritten(msg: Text, pos: nat) returns (r: Resource)
    requires ReadRecord(msg, pos).Some?
    ensures ResourceAt(msg, pos, ReadRecord(msg, pos).value.end, r)
  {
    hide At, ReadLabels, U16, DataAt;
    var name := ReadNamesAreWritten(msg, pos, 0);
    var located := ReadRecord(msg, pos).value;
    var data := DataIsSomething(msg, located.start, located.end, located.typ);
    r := Resource(name, data);
  }

  /** The records that are read are all that are written one after the other, up to n of them. */
  lemma {:induction false} ReadRecordsAreWritten(msg: Text, pos: nat, n: nat) returns (ends: seq<nat>, rs: seq<Resource>)
    ensures ResourcesAt(msg, pos, ends, rs) && |rs| <= n
    ensures RecordAddresses(msg, ReadRecords(msg, pos, n)) == AllAddresses(rs)
    ensures |rs| < n ==> forall end, r :: !ResourceAt(msg, After(pos, ends), end, r)
    decreases n
  {
    hide ResourceAt, DataAt, ReadRecord, LocatedAddresses, ReadRecords, RecordAddresses, Addresses, TypeOf, End;
    NoMoreRecords(msg, pos);
    ends, rs := [], [];
    if n > 0 {
      RecordStep(msg, pos, n);
      if ReadRecord(msg, pos).Some? {
        var end := ReadRecord(msg, pos).value.end;
        var r := ReadRecordIsWritten(msg, pos);
        WrittenRecordIsRead(msg, pos, end, r);
        WrittenDataIsRead(msg, End(pos, r.name) + 10, end, r.data);
        var moreEnds, more := ReadRecordsAreWritten(msg, end, n - 1);
        ends, rs := [end] + moreEnds, [r] + more;
        assert ends[1..] == moreEnds && rs[1..] == more && After(pos, ends) == After(end, moreEnds);
      } else {
        forall end, r
          ensures !ResourceAt(msg, pos, end, r)
        {
          if ResourceAt(msg, pos, end, r) {
            WrittenRecordIsRead(msg, pos, end, r);
          }
        }
      }
    }
  }

  lemma {:induction false} SkippedQuestionsAreWritten(msg: Text, pos: nat, n: nat) returns (names: seq<NameForm>)
    requires SkipQuestions(msg, pos, n).Some?
    ensures |names| == n && QuestionsAt(msg, pos, names, SkipQuestions(msg, pos, n).value)
    decreases n
  {
    hide ReadLabels, At;
    names := [];
    if n > 0 {
      var name := ReadNamesAreWritten(msg, pos, 0);
      var more := SkippedQuestionsAreWritten(msg, End(pos, name) + 4, n - 1);
      names := [name] + more;
      assert names[1..] == more;
    }
  }

  /** The questions that the header announces are all written. */
  ghost predicate HasQuestions(msg: Text, names: seq<NameForm>, end: nat) {
    12 <= |msg| && U16(msg, 4) == |names| && QuestionsAt(msg, 12, names, end)
  }

  /**
    On arbitrary bytes: without all its questions a message has no answers; otherwise
    the answers are those written one after the other behind the questions, as many
    as the header announces or until the first place where none is written.
   */
  lemma AnyMessageIsReadAsWritten(msg: Text) returns (names: seq<NameForm>, end: nat, ends: seq<nat>, answers: seq<Resource>)
    ensures (exists names, end :: HasQuestions(msg, names, end)) ==> HasQuestions(msg, names, end)
    ensures !HasQuestions(msg, names, end) ==> AnswerAddresses(msg) == []
    ensures HasQuestions(msg, names, end) ==>
              && ResourcesAt(msg, end, ends, answers) && |answers| <= U16(msg, 6)
              && (|answers| < U16(msg, 6) ==> forall e, r :: !ResourceAt(msg, After(end, ends), e, r))
              && AnswerAddresses(msg) == AllAddresses(answers)
  {
    hide QuestionsAt, ResourcesAt, ResourceAt, SkipQuestions, ReadRecords, RecordAddresses, AllAddresses;
    names, end, ends, answers := [], 0, [], [];
    if |msg| >= 12 {
      forall names: seq<NameForm>, end: nat | HasQuestions(msg, names, end)
        ensures SkipQuestions(msg, HEADER, |names|) == Some(end)
      {
        WrittenQuestionsAreSkipped(msg, HEADER, names, end);
      }
      if SkipQuestions(msg, HEADER, U16(msg, 4)).Some? {
        end := SkipQuestions(msg, HEADER, U16(msg, 4)).value;
        names := SkippedQuestionsAreWritten(msg, HEADER, U16(msg, 4));
        ends, answers := ReadRecordsAreWritten(msg, end, U16(msg, 6));
      }
    }
  }

  // ---------- all sections ----------

  /** The number of records in all three sections. */
  function RecordCount(msg: Text): nat
    requires |msg| >= HEADER
  {
    U16(msg, 6) + U16(msg, 8) + U16(msg, 10)
  }

  /** A message with these questions and records, whatever their section. */
  ghost predicate MessageAt(msg: Text, questions: seq<NameForm>, end: nat, ends: seq<nat>, records: seq<Resource>) {
    && 12 <= |msg| && U16(msg, 4) == |questions| && U16(msg, 6) + U16(msg, 8) + U16(msg, 10) == |records|
    && QuestionsAt(msg, 12, questions, end) && ResourcesAt(msg, end, ends, records)
  }

  /** The addresses of the records of all sections that can be read, in order. */
  function MessageAddresses(msg: Text): seq<IP> {
    if |msg| < HEADER then []
    else
      match SkipQuestions(msg, HEADER, U16(msg, 4))
      case None => []
      case Some(pos) => RecordAddresses(msg, ReadRecords(msg, pos, RecordCount(msg)))
  }

  /** Of a well-formed message these are exactly the addresses its records hand out. */
  lemma MessageHandsOutItsAddresses(msg: Text, questions: seq<NameForm>, end: nat, ends: seq<nat>, records: seq<Resource>)
    requires MessageAt(msg, questions, end, ends, records)
    ensures MessageAddresses(msg) == AllAddresses(records)
  {
    hide QuestionsAt, ResourcesAt, SkipQuestions, ReadRecords, RecordAddresses, U16, AllAddresses;
    WrittenQuestionsAreSkipped(msg, HEADER, questions, end);
    WrittenRecordsAreRead(msg, end, ends, records);
  }

  lemma {:induction false} FewerRecords(msg: Text, pos: nat, n: nat, m: nat)
    requires n <= m
    ensures RecordAddresses(msg, ReadRecords(msg, pos, n)) <= RecordAddresses(msg, ReadRecords(msg, pos, m))
    decreases n
  {
    hide ReadRecords, RecordAddresses, ReadRecord, LocatedAddresses;
    NoMoreRecords(msg, pos);
    if n > 0 {
      RecordStep(msg, pos, n);
      RecordStep(msg, pos, m);
      if ReadRecord(msg, pos).Some? {
        FewerRecords(msg, ReadRecord(msg, pos).value.end, n - 1, m - 1);
      }
    }
  }

  /** The answers come first: their addresses are a prefix of all addresses. */
  lemma AnswersComeFirst(msg: Text)
    ensures AnswerAddresses(msg) <= MessageAddresses(msg)
  {
    hide SkipQuestions, ReadRecords, RecordAddresses, U16;
    if |msg| >= HEADER && SkipQuestions(msg, HEADER, U16(msg, 4)).Some? {
      FewerRecords(msg, SkipQuestions(msg, HEADER, U16(msg, 4)).value, U16(msg, 6), RecordCount(msg));
    }
  }

  // ---------- blocked names ----------

  const ZERO4: Text := [0, 0, 0, 0]
  const ZERO16: Text := [0, 0, 0, 0, 0, 0, 0, 0, 0, 0, 0, 0, 0, 0, 0, 0]

  predicate NullRoute(ip: IP) {
    ip == V4(ZERO4) || ip == V6(ZERO16)
  }

  /** NXDOMAIN, an empty answer, or only null routes. */
  predicate Sinkhole(msg: Text) {
    && |msg| >= HEADER
    && var rcode := msg[3] % 16;
       || rcode == 3
       || (rcode == 0 && U16(msg, 6) == 0)
       || (rcode == 0 && AnswerAddresses(msg) != [] && forall ip :: ip in AnswerAddresses(msg) ==> NullRoute(ip))
  }

  method IsSinkholeResponse(msg: Text) returns (r: bool)
    ensures r <==> Sinkhole(msg)
  {
    hide AnswerAddresses, Dedup;
    if |msg| < HEADER {
      return false;
    }
    var rcode := msg[3] % 16;
    if rcode == 3 {
      return true;
    }
    if rcode != 0 {
      return false;
    }
    if msg[6] == 0 && msg[7] == 0 {
      return true;
    }
    var ips := AnswerIPs(msg);
    DedupKeepsElements(AnswerAddresses(msg));
    DedupOfNothing(AnswerAddresses(msg));
    if |ips| == 0 {
      return false;
    }
    assert ips[0] in AnswerAddresses(msg);
    for i := 0 to |ips|
      invariant forall j :: 0 <= j < i ==> NullRoute(ips[j])
    {
      if !NullRoute(ips[i]) {
        assert ips[i] in AnswerAddresses(msg);
        return false;
      }
    }
    return true;
  }
}
