/** The validator that picks the Bluetooth transport from the embedded NVM image. */
module NvmProfile {
  import opened Common

  const RECORD_HEADER := 12
  const TRANSPORT_TAG := 17
  const TRANSPORT_SIZE := 6

  // ----- the format -----

  /** A tag, a payload length and eight more bytes, then the payload. */
  datatype Record = Record(header: seq<byte>, payload: seq<byte>)

  function Tag(r: Record): nat
    requires |r.header| == 12
  {
    U16(r.header[0], r.header[1])
  }

  ghost predicate WellFormed(r: Record) {
    |r.header| == 12 && U16(r.header[2], r.header[3]) == |r.payload|
  }

  ghost predicate AllWellFormed(rs: seq<Record>) {
    forall i :: 0 <= i < |rs| ==> WellFormed(rs[i])
  }

  function Encode(r: Record): seq<byte> {
    r.header + r.payload
  }

  function Body(rs: seq<Record>): seq<byte> {
    if rs == [] then [] else Encode(rs[0]) + Body(rs[1..])
  }

  /** Type 2, then the body's length in 24 bits. */
  ghost predicate ImageHeader(image: seq<byte>) {
    && |image| >= 4 && image[0] == 2
    && U16(image[1], image[2]) + 65536 * (image[3] as int) == |image| - 4
  }

  /** The image is the header followed by exactly these records. */
  ghost predicate IsImage(image: seq<byte>, rs: seq<Record>) {
    ImageHeader(image) && AllWellFormed(rs) && image[4..] == Body(rs)
  }

  /** The bytes do not begin with a complete record. */
  ghost predicate NoRecord(bytes: seq<byte>) {
    |bytes| < 12 || |bytes| < 12 + U16(bytes[2], bytes[3])
  }

  function Transports(rs: seq<Record>): nat
    requires AllWellFormed(rs)
  {
    if rs == [] then 0
    else Transports(rs[..|rs| - 1]) + if Tag(rs[|rs| - 1]) == 17 then 1 else 0
  }

  /** A transport record of another size, or a second transport record. */
  ghost predicate Offends(rs: seq<Record>)
    requires AllWellFormed(rs)
  {
    Transports(rs) > 1 || exists i :: 0 <= i < |rs| && Tag(rs[i]) == 17 && |rs[i].payload| != 6
  }

  /** Exactly one transport record, of the right size: bit 7 of its first payload byte is the mode. */
  ghost predicate Profile(rs: seq<Record>, k: nat) {
    && AllWellFormed(rs) && k < |rs| && Tag(rs[k]) == 17 && |rs[k].payload| == 6
    && forall i :: 0 <= i < |rs| && i != k ==> Tag(rs[i]) != 17
  }

  ghost predicate IbsBit(r: Record)
    requires r.payload != []
  {
    r.payload[0] >= 128
  }

  // ----- reading is unambiguous -----

  lemma {:induction false} BodySplit(rs: seq<Record>, k: nat)
    requires k <= |rs|
    ensures Body(rs) == Body(rs[..k]) + Body(rs[k..])
  {
    if k > 0 {
      BodySplit(rs[1..], k - 1);
      assert rs[1..][..k - 1] == rs[..k][1..];
      assert rs[1..][k - 1..] == rs[k..];
    } else {
      assert rs[0..] == rs;
    }
  }

  lemma BodySnoc(rs: seq<Record>, r: Record)
    ensures Body(rs + [r]) == Body(rs) + Encode(r)
  {
    BodySplit(rs + [r], |rs|);
    assert (rs + [r])[..|rs|] == rs && (rs + [r])[|rs|..] == [r];
  }

  /** Two walks over the same bytes agree as far as the shorter one goes. */
  lemma {:induction false} WalksAgree(rs: seq<Record>, tail: seq<byte>, more: seq<Record>, rest: seq<byte>)
    requires AllWellFormed(rs) && AllWellFormed(more) && |rs| <= |more|
    requires Body(rs) + tail == Body(more) + rest
    ensures rs == more[..|rs|] && tail == Body(more[|rs|..]) + rest
  {
    if rs == [] {
      assert more[0..] == more;
    } else {
      var r, m, bytes := rs[0], more[0], Body(rs) + tail;
      BodyHead(rs, tail);
      BodyHead(more, rest);
      FirstRecord(r, Body(rs[1..]) + tail, bytes);
      FirstRecord(m, Body(more[1..]) + rest, bytes);
      WalksAgree(rs[1..], tail, more[1..], rest);
      assert rs == [r] + rs[1..] && more == [m] + more[1..];
    }
  }

  lemma BodyHead(rs: seq<Record>, tail: seq<byte>)
    requires rs != []
    ensures Body(rs) + tail == Encode(rs[0]) + (Body(rs[1..]) + tail)
  {
    Associate(Encode(rs[0]), Body(rs[1..]), tail);
  }

  lemma Associate(a: seq<byte>, b: seq<byte>, c: seq<byte>)
    ensures a + b + c == a + (b + c)
  {
  }

  /** The bytes decide which record comes first and what follows it. */
  lemma FirstRecord(r: Record, rest: seq<byte>, bytes: seq<byte>)
    requires WellFormed(r) && bytes == Encode(r) + rest
    ensures !NoRecord(bytes)
    ensures r.header == bytes[..12] && r.payload == bytes[12..12 + U16(bytes[2], bytes[3])]
    ensures rest == bytes[12 + U16(bytes[2], bytes[3])..]
  {
    assert bytes[..12] == r.header;
    assert bytes[2] == r.header[2] && bytes[3] == r.header[3];
  }

  lemma {:induction false} OffencesStay(rs: seq<Record>, k: nat)
    requires AllWellFormed(rs) && k <= |rs|
    ensures Transports(rs[..k]) <= Transports(rs)
    decreases |rs| - k
  {
    if k < |rs| {
      OffencesStay(rs, k + 1);
      assert rs[..k + 1][..k] == rs[..k];
    } else {
      assert rs[..k] == rs;
    }
  }

  lemma {:induction false} NoneMeansNone(rs: seq<Record>)
    requires AllWellFormed(rs)
    ensures Transports(rs) == 0 <==> forall i :: 0 <= i < |rs| ==> Tag(rs[i]) != 17
  {
    if rs != [] {
      NoneMeansNone(rs[..|rs| - 1]);
    }
  }

  lemma {:induction false} OneMeansOne(rs: seq<Record>, k: nat)
    requires Profile(rs, k)
    ensures Transports(rs) == 1
  {
    var front := rs[..|rs| - 1];
    if k == |rs| - 1 {
      NoneMeansNone(front);
    } else {
      assert front[k] == rs[k];
      OneMeansOne(front, k);
    }
  }

  // ----- writing an image -----

  /** What a record is made from: its tag, the eight bytes the validator does not read, its payload. */
  datatype Item = Item(tag: nat, filler: seq<byte>, payload: seq<byte>)

  ghost predicate Writable(items: seq<Item>) {
    forall i :: 0 <= i < |items| ==>
      items[i].tag < 65536 && |items[i].filler| == 8 && |items[i].payload| < 65536
  }

  /** A number's lowest byte, its next one, and its third. */
  function Low(n: nat): byte {
    n % 256
  }

  function Middle(n: nat): byte {
    n / 256 % 256
  }

  function High(n: nat): byte {
    n / 65536 % 256
  }

  /** An image, byte by byte: every number with its low byte first. */
  function Written(items: seq<Item>): seq<byte> {
    var body := WrittenBody(items);
    [2, Low(|body|), Middle(|body|), High(|body|)] + body
  }

  function WrittenBody(items: seq<Item>): seq<byte> {
    if items == [] then []
    else
      var i := items[0];
      [Low(i.tag), Middle(i.tag), Low(|i.payload|), Middle(|i.payload|)] + i.filler + i.payload
      + WrittenBody(items[1..])
  }

  /** The record an item is written as. */
  function RecordOf(i: Item): Record {
    Record([Low(i.tag), Middle(i.tag), Low(|i.payload|), Middle(|i.payload|)] + i.filler, i.payload)
  }

  function RecordsOf(items: seq<Item>): (rs: seq<Record>)
    ensures |rs| == |items| && forall i :: 0 <= i < |items| ==> rs[i] == RecordOf(items[i])
  {
    if items == [] then [] else [RecordOf(items[0])] + RecordsOf(items[1..])
  }

  lemma LowFirst(n: nat)
    requires n < 16777216
    ensures n < 65536 ==> U16(Low(n), Middle(n)) == n
    ensures U16(Low(n), Middle(n)) + 65536 * High(n) == n
  {
    var q := n / 256;
    TwoDigits(n, q);
    TwoDigits(q, q / 256);
    NextByte(n);
  }

  lemma TwoDigits(n: nat, q: nat)
    requires q == n / 256
    ensures n == n % 256 + 256 * q
  {
  }

  lemma NextByte(n: nat)
    requires n < 16777216
    ensures n / 65536 == n / 256 / 256 < 256
    ensures n < 65536 ==> n / 65536 == 0
  {
  }

  lemma ItemIsRecord(i: Item)
    requires i.tag < 65536 && |i.filler| == 8 && |i.payload| < 65536
    ensures WellFormed(RecordOf(i)) && Tag(RecordOf(i)) == i.tag
  {
    LowFirst(i.tag);
    LowFirst(|i.payload|);
  }

  lemma {:induction false} BodyIsWritten(items: seq<Item>)
    ensures Body(RecordsOf(items)) == WrittenBody(items)
  {
    if items != [] {
      BodyIsWritten(items[1..]);
      assert RecordsOf(items)[1..] == RecordsOf(items[1..]);
    }
  }

  /** What is written is an image of these records. */
  lemma WrittenIsImage(items: seq<Item>)
    requires Writable(items) && |WrittenBody(items)| < 16777216
    ensures IsImage(Written(items), RecordsOf(items))
  {
    var image, body := Written(items), WrittenBody(items);
    LowFirst(|body|);
    BodyIsWritten(items);
    assert image[4..] == body;
    forall i | 0 <= i < |items|
      ensures WellFormed(RecordsOf(items)[i])
    {
      ItemIsRecord(items[i]);
    }
  }

  // ----- the validator -----

  datatype Verdict = Mode(ibs: bool) | EInval | EProto

  /** How far the walk got: these records, then bytes it had not read. */
  ghost predicate Walked(image: seq<byte>, rs: seq<Record>, tail: seq<byte>) {
    ImageHeader(image) && AllWellFormed(rs) && image[4..] == Body(rs) + tail
  }

  /** An accepted image: the records, the one transport record among them, and its mode bit. */
  ghost predicate HasMode(image: seq<byte>, ibs: bool) {
    exists rs, k :: IsImage(image, rs) && Profile(rs, k) && (ibs <==> IbsBit(rs[k]))
  }

  /** Some complete records already offend, or the records end without a transport record. */
  ghost predicate BreaksProtocol(image: seq<byte>) {
    exists rs, tail :: Walked(image, rs, tail) && (Offends(rs) || (tail == [] && Transports(rs) == 0))
  }

  /** No image header, or inoffensive records and then bytes that hold no complete record. */
  ghost predicate Malformed(image: seq<byte>) {
    !ImageHeader(image) ||
    exists rs, tail :: Walked(image, rs, tail) && !Offends(rs) && tail != [] && NoRecord(tail)
  }

  lemma Stuck(image: seq<byte>, rs: seq<Record>, tail: seq<byte>, more: seq<Record>, rest: seq<byte>)
    requires Walked(image, rs, tail) && Walked(image, more, rest) && tail != [] && NoRecord(tail)
    ensures |more| <= |rs| && more == rs[..|more|]
  {
    if |rs| < |more| {
      WalksAgree(rs, tail, more, rest);
      var next := more[|rs|..];
      assert next[0] == more[|rs|];
      FirstRecord(next[0], Body(next[1..]) + rest, tail);
    } else {
      WalksAgree(more, rest, rs, tail);
    }
  }

  lemma OffencesGrow(rs: seq<Record>, k: nat)
    requires AllWellFormed(rs) && k <= |rs| && Offends(rs[..k])
    ensures Offends(rs)
  {
    OffencesStay(rs, k);
    if i :| 0 <= i < k && Tag(rs[..k][i]) == 17 && |rs[..k][i].payload| != 6 {
      assert rs[i] == rs[..k][i];
    }
  }

  lemma ProfileIsClean(rs: seq<Record>, k: nat)
    requires Profile(rs, k)
    ensures !Offends(rs) && Transports(rs) == 1
  {
    OneMeansOne(rs, k);
  }

  lemma BodyGrows(rs: seq<Record>)
    requires AllWellFormed(rs) && rs != []
    ensures Body(rs) != []
  {
    assert WellFormed(rs[0]);
  }

  lemma CompleteWalks(image: seq<byte>, rs: seq<Record>, more: seq<Record>, rest: seq<byte>)
    requires Walked(image, rs, []) && Walked(image, more, rest)
    ensures |more| <= |rs| && more == rs[..|more|]
    ensures rest == [] ==> more == rs
  {
    if |rs| < |more| {
      WalksAgree(rs, [], more, rest);
      BodyGrows(more[|rs|..]);
      assert false;
    } else {
      WalksAgree(more, rest, rs, []);
      if |more| < |rs| {
        BodyGrows(rs[|more|..]);
      }
    }
  }

  /** The record list is unique, so at most one mode can be read. */
  lemma ReadingIsUnique(image: seq<byte>, rs: seq<Record>, k: nat, more: seq<Record>, j: nat)
    requires IsImage(image, rs) && Profile(rs, k) && IsImage(image, more) && Profile(more, j)
    ensures rs == more && k == j
  {
    assert Walked(image, rs, []) && Walked(image, more, []);
    CompleteWalks(image, rs, more, []);
  }

  lemma SameLength(image: seq<byte>, rs: seq<Record>, tail: seq<byte>)
    requires Walked(image, rs, tail) && Walked(image, rs, [])
    ensures tail == []
  {
    assert |image[4..]| == |Body(rs)| + |tail| == |Body(rs)|;
  }

  /** No walk over a cleanly readable image ends badly. */
  lemma CleanWalk(image: seq<byte>, rs: seq<Record>, more: seq<Record>, rest: seq<byte>)
    requires Walked(image, rs, []) && !Offends(rs) && Transports(rs) == 1 && Walked(image, more, rest)
    ensures !Offends(more) && !(rest == [] && Transports(more) == 0) && !(rest != [] && NoRecord(rest))
  {
    CompleteWalks(image, rs, more, rest);
    if Offends(more) {
      OffencesGrow(rs, |more|);
    }
    if rest != [] && NoRecord(rest) {
      Stuck(image, more, rest, rs, []);
      assert more == rs;
      SameLength(image, rs, rest);
    }
  }

  /** An accepted image is neither kind of rejected image. */
  lemma AcceptedIsNotRejected(image: seq<byte>, ibs: bool)
    requires HasMode(image, ibs)
    ensures !BreaksProtocol(image) && !Malformed(image) && !HasMode(image, !ibs)
  {
    var rs, k :| IsImage(image, rs) && Profile(rs, k) && (ibs <==> IbsBit(rs[k]));
    assert Walked(image, rs, []);
    ProfileIsClean(rs, k);
    forall more, rest | Walked(image, more, rest)
      ensures !Offends(more) && !(rest == [] && Transports(more) == 0) && !(rest != [] && NoRecord(rest))
    {
      CleanWalk(image, rs, more, rest);
    }
    forall more, j | IsImage(image, more) && Profile(more, j)
      ensures ibs <==> IbsBit(more[j])
    {
      ReadingIsUnique(image, rs, k, more, j);
    }
  }

  /** An image rejected for its records is not also rejected for its shape. */
  lemma RejectionsExclude(image: seq<byte>)
    ensures !(BreaksProtocol(image) && Malformed(image))
  {
    if BreaksProtocol(image) && Malformed(image) {
      var rs, tail :| Walked(image, rs, tail) && !Offends(rs) && tail != [] && NoRecord(tail);
      var more, rest :| Walked(image, more, rest) && (Offends(more) || (rest == [] && Transports(more) == 0));
      Stuck(image, rs, tail, more, rest);
      if Offends(more) {
        OffencesGrow(rs, |more|);
      } else {
        CompleteWalks(image, more, rs, tail);
        assert more == rs;
        SameLength(image, rs, tail);
      }
    }
  }

  ghost predicate Deserved(image: seq<byte>, r: Verdict) {
    match r
    case Mode(ibs) => HasMode(image, ibs)
    case EProto => BreaksProtocol(image)
    case EInval => Malformed(image)
  }

  /** The three outcomes exclude one another, so the format alone fixes the verdict. */
  lemma OneVerdict(image: seq<byte>, r: Verdict, other: Verdict)
    requires Deserved(image, r) && Deserved(image, other)
    ensures r == other
  {
    RejectionsExclude(image);
    if r.Mode? {
      AcceptedIsNotRejected(image, r.ibs);
    } else if other.Mode? {
      AcceptedIsNotRejected(image, other.ibs);
    }
  }

  /** One transport record of six bytes among the items, the k-th. */
  ghost predicate OneTransport(items: seq<Item>, k: nat) {
    && k < |items| && items[k].tag == 17 && |items[k].payload| == 6
    && forall i :: 0 <= i < |items| && i != k ==> items[i].tag != 17
  }

  /** The same, with the mode in the top bit of its first byte. */
  ghost predicate OneTransportSays(items: seq<Item>, k: nat, ibs: bool) {
    OneTransport(items, k) && (ibs <==> items[k].payload[0] / 128 == 1)
  }

  /** The verdict a list of items calls for. */
  ghost predicate Calls(items: seq<Item>, r: Verdict) {
    match r
    case Mode(ibs) => exists k :: OneTransportSays(items, k, ibs)
    case EProto => forall k :: !OneTransport(items, k)
    case EInval => false
  }

  lemma RecordsAreItems(items: seq<Item>)
    requires Writable(items)
    ensures AllWellFormed(RecordsOf(items))
    ensures forall i :: 0 <= i < |items| ==>
              Tag(RecordsOf(items)[i]) == items[i].tag && RecordsOf(items)[i].payload == items[i].payload
  {
    forall i | 0 <= i < |items|
      ensures WellFormed(RecordsOf(items)[i]) && Tag(RecordsOf(items)[i]) == items[i].tag
      ensures RecordsOf(items)[i].payload == items[i].payload
    {
      ItemIsRecord(items[i]);
    }
  }

  lemma ModeIsDeserved(items: seq<Item>, k: nat, ibs: bool)
    requires Writable(items) && |WrittenBody(items)| < 16777216 && OneTransportSays(items, k, ibs)
    ensures HasMode(Written(items), ibs)
  {
    hide Tag, Written, WrittenBody, RecordOf;
    WrittenIsImage(items);
    RecordsAreItems(items);
    assert Profile(RecordsOf(items), k);
  }

  lemma ItemOffers(items: seq<Item>, k: nat)
    requires Writable(items) && Profile(RecordsOf(items), k)
    ensures OneTransport(items, k)
  {
    hide RecordsOf, RecordOf, Tag;
    RecordsAreItems(items);
    assert |RecordsOf(items)| == |items|;
  }

  lemma ProtocolIsBroken(items: seq<Item>)
    requires Writable(items) && |WrittenBody(items)| < 16777216 && forall k :: !OneTransport(items, k)
    ensures BreaksProtocol(Written(items))
  {
    hide Tag, Written, WrittenBody, RecordOf, Encode;
    var rs := RecordsOf(items);
    WrittenIsImage(items);
    RecordsAreItems(items);
    assert Walked(Written(items), rs, []);
    if Transports(rs) != 0 && !Offends(rs) {
      var k := Only(rs);
      ItemOffers(items, k);
    }
  }

  lemma Only(rs: seq<Record>) returns (k: nat)
    requires AllWellFormed(rs) && Transports(rs) != 0 && !Offends(rs)
    ensures Profile(rs, k)
  {
    NoneMeansNone(rs);
    k :| 0 <= k < |rs| && Tag(rs[k]) == 17;
    forall i | 0 <= i < |rs| && i != k
      ensures Tag(rs[i]) != 17
    {
      if Tag(rs[i]) == 17 {
        TwoMeansTwo(rs, i, k);
      }
    }
  }

  /** Reading what was written: the verdict is the one the items call for. */
  lemma WrittenVerdict(items: seq<Item>, r: Verdict)
    requires Writable(items) && |WrittenBody(items)| < 16777216 && Deserved(Written(items), r)
    ensures Calls(items, r)
  {
    hide HasMode, BreaksProtocol, Malformed, Written, WrittenBody, Writable;
    if k: nat :| OneTransport(items, k) {
      var ibs := items[k].payload[0] / 128 == 1;
      assert OneTransportSays(items, k, ibs);
      ModeIsDeserved(items, k, ibs);
      OneVerdict(Written(items), r, Mode(ibs));
    } else {
      ProtocolIsBroken(items);
      OneVerdict(Written(items), r, EProto);
    }
  }

  lemma {:induction false} TwoMeansTwo(rs: seq<Record>, i: nat, k: nat)
    requires AllWellFormed(rs) && i < |rs| && k < |rs| && i != k && Tag(rs[i]) == Tag(rs[k]) == 17
    ensures Transports(rs) > 1
  {
    var last := |rs| - 1;
    var front := rs[..last];
    if i != last && k != last {
      assert front[i] == rs[i] && front[k] == rs[k];
      TwoMeansTwo(front, i, k);
    } else {
      var other := if i == last then k else i;
      assert front[other] == rs[other];
      NoneMeansNone(front);
    }
  }

  /** qca6490_runtime_transport_mode; the mode is delivered only with success. */
  method TransportMode(data: array?<byte>, length: nat, wanted: bool) returns (r: Verdict)
    requires data != null ==> length <= data.Length
    ensures data == null || !wanted ==> r == EInval
    ensures data != null && wanted ==> Deserved(data[..length], r)
    ensures data != null && wanted ==> Answers(data[..length], r)
  {
    if data == null || !wanted {
      return EInval;
    }
    r := Validate(data, length);
    forall items | Writable(items) && |WrittenBody(items)| < 16777216 && data[..length] == Written(items)
      ensures Calls(items, r)
    {
      WrittenVerdict(items, r);
    }
  }

  /** If the image was written from some items, the verdict is the one they call for. */
  ghost predicate Answers(image: seq<byte>, r: Verdict) {
    forall items :: Writable(items) && |WrittenBody(items)| < 16777216 && image == Written(items) ==> Calls(items, r)
  }

  method Validate(data: array<byte>, length: nat) returns (r: Verdict)
    requires length <= data.Length
    ensures Deserved(data[..length], r)
  {
    if length < 4 || data[0] != 2 {
      return EInval;
    }
    if U16(data[1], data[2]) + 65536 * (data[3] as int) != length - 4 {
      return EInval;
    }
    r := Walk(data, length);
    WalkIsRight(data[..length]);
  }

  /** The record loop, after the image header has been checked. */
  method Walk(data: array<byte>, length: nat) returns (r: Verdict)
    requires 4 <= length <= data.Length
    ensures r == Scan(data[..length], 4, 0, false)
  {
    ghost var image := data[..length];
    var at := 4;
    var count := 0;
    var ibs := false;
    while at < length
      invariant 4 <= at <= length
      invariant Scan(image, at, count, ibs) == Scan(image, 4, 0, false)
      decreases length - at
    {
      var left: nat := length - at;
      if left < RECORD_HEADER {
        return EInval;
      }
      var tag := U16(data[at], data[at + 1]);
      var size := U16(data[at + 2], data[at + 3]);
      var payload := at + RECORD_HEADER;
      var room: nat := length - payload;
      if size > room {
        return EInval;
      }
      if tag == TRANSPORT_TAG {
        if count > 0 || size != TRANSPORT_SIZE {
          return EProto;
        }
        count, ibs := count + 1, data[payload] >= 128;
      }
      at := payload + size;
    }
    return if count != 1 then EProto else Mode(ibs);
  }

  /** A complete record starts at this offset. */
  predicate Holds(image: seq<byte>, at: nat) {
    at + 12 <= |image| && at + 12 + U16(image[at + 2], image[at + 3]) <= |image|
  }

  /** The complete record at an offset. */
  function RecordAt(image: seq<byte>, at: nat): Record
    requires Holds(image, at)
  {
    var size := U16(image[at + 2], image[at + 3]);
    Record(image[at..at + 12], image[at + 12..at + 12 + size])
  }

  /** The verdict of the walk resumed at an offset. */
  function Scan(image: seq<byte>, at: nat, count: nat, ibs: bool): Verdict
    decreases |image| - at
  {
    if at >= |image| then
      if count == 1 then Mode(ibs) else EProto
    else if !Holds(image, at) then
      EInval
    else
      var next := at + 12 + U16(image[at + 2], image[at + 3]);
      if U16(image[at], image[at + 1]) != 17 then Scan(image, next, count, ibs)
      else if count > 0 || next != at + 18 then EProto
      else Scan(image, next, count + 1, image[at + 12] >= 128)
  }

  lemma WalkIsRight(image: seq<byte>)
    requires ImageHeader(image)
    ensures Deserved(image, Scan(image, 4, 0, false))
  {
    var r := Scan(image, 4, 0, false);
    var rs, tail, k := Trace(image, 4, [], 0, false, 0, r);
    if r.Mode? {
      assert image[4..] == Body(rs) + [] == Body(rs);
      assert IsImage(image, rs);
    }
  }

  /** Where a walk stopped, and why. */
  ghost predicate Ends(rs: seq<Record>, tail: seq<byte>, k: nat, r: Verdict)
    requires AllWellFormed(rs)
  {
    match r
    case Mode(ibs) => tail == [] && Profile(rs, k) && (ibs <==> IbsBit(rs[k]))
    case EProto => Offends(rs) || (tail == [] && Transports(rs) == 0)
    case EInval => !Offends(rs) && tail != [] && NoRecord(tail)
  }

  lemma {:induction false} Trace(image: seq<byte>, at: nat, rs: seq<Record>, count: nat, ibs: bool, k: nat, r: Verdict)
    returns (all: seq<Record>, tail: seq<byte>, j: nat)
    requires at <= |image| && Walked(image, rs, image[at..]) && Found(rs, count, ibs, k)
    requires r == Scan(image, at, count, ibs)
    ensures Walked(image, all, tail) && Ends(all, tail, j, r)
    decreases |image| - at
  {
    if at == |image| || !Holds(image, at) {
      all, tail, j := rs, image[at..], k;
      Stops(image, at, rs, count, ibs, k, r);
    } else if Objectionable(image, at, count) {
      all, tail := Objects(image, at, rs, count, ibs, k, r);
      j := k;
    } else {
      var onward := at + 12 + U16(image[at + 2], image[at + 3]);
      var transport := U16(image[at], image[at + 1]) == 17;
      var c, b := if transport then count + 1 else count, if transport then image[at + 12] >= 128 else ibs;
      assert r == Scan(image, onward, c, b);
      var more, i := GoesOn(image, at, rs, count, ibs, k, onward, c, b);
      all, tail, j := Trace(image, onward, more, c, b, i, r);
    }
  }

  /** The record here is a second transport record, or one of the wrong size. */
  predicate Objectionable(image: seq<byte>, at: nat, count: nat)
    requires Holds(image, at)
  {
    U16(image[at], image[at + 1]) == 17 && (count > 0 || U16(image[at + 2], image[at + 3]) != 6)
  }

  lemma GoesOn(image: seq<byte>, at: nat, rs: seq<Record>, count: nat, ibs: bool, k: nat,
               onward: nat, c: nat, b: bool)
    returns (more: seq<Record>, i: nat)
    requires at < |image| && Holds(image, at) && !Objectionable(image, at, count)
    requires Walked(image, rs, image[at..]) && Found(rs, count, ibs, k)
    requires onward == at + 12 + U16(image[at + 2], image[at + 3])
    requires c == if U16(image[at], image[at + 1]) == 17 then count + 1 else count
    requires b == if U16(image[at], image[at + 1]) == 17 then image[at + 12] >= 128 else ibs
    ensures Walked(image, more, image[onward..]) && Found(more, c, b, i)
  {
    var next := RecordAt(image, at);
    Advance(image, rs, at);
    more := rs + [next];
    i := Took(rs, next, count, ibs, k);
  }

  lemma Took(rs: seq<Record>, next: Record, count: nat, ibs: bool, k: nat) returns (i: nat)
    requires Found(rs, count, ibs, k) && WellFormed(next)
    requires Tag(next) == 17 ==> count == 0 && |next.payload| == 6
    ensures if Tag(next) == 17 then Found(rs + [next], count + 1, IbsBit(next), i)
            else Found(rs + [next], count, ibs, i)
  {
    if Tag(next) == 17 {
      FoundTransport(rs, next, ibs, k);
      i := |rs|;
    } else {
      FoundOther(rs, next, count, ibs, k);
      i := k;
    }
  }

  lemma Objects(image: seq<byte>, at: nat, rs: seq<Record>, count: nat, ibs: bool, k: nat, r: Verdict)
    returns (more: seq<Record>, rest: seq<byte>)
    requires at < |image| && Holds(image, at) && Objectionable(image, at, count)
    requires Walked(image, rs, image[at..]) && Found(rs, count, ibs, k)
    requires r == Scan(image, at, count, ibs)
    ensures Walked(image, more, rest) && Ends(more, rest, k, r)
  {
    var next := RecordAt(image, at);
    Advance(image, rs, at);
    ScanStep(image, at, count, ibs);
    OffendsSnoc(rs, next);
    more, rest := rs + [next], image[at + 12 + |next.payload|..];
  }

  lemma ScanStep(image: seq<byte>, at: nat, count: nat, ibs: bool)
    requires at < |image| && Holds(image, at)
    ensures var r := RecordAt(image, at);
            var onward := at + 12 + |r.payload|;
            && |r.header| == 12
            && Scan(image, at, count, ibs) ==
               if Tag(r) != 17 then Scan(image, onward, count, ibs)
               else if count > 0 || |r.payload| != 6 then EProto
               else Scan(image, onward, count + 1, IbsBit(r))
  {
  }

  lemma Stops(image: seq<byte>, at: nat, rs: seq<Record>, count: nat, ibs: bool, k: nat, r: Verdict)
    requires at <= |image| && (at == |image| || !Holds(image, at)) && Found(rs, count, ibs, k)
    requires r == Scan(image, at, count, ibs)
    ensures Ends(rs, image[at..], k, r)
  {
    NoRecordHere(image, at);
  }

  lemma NoRecordHere(image: seq<byte>, at: nat)
    requires at <= |image| && !Holds(image, at)
    ensures NoRecord(image[at..])
  {
    var tail := image[at..];
    assert |tail| >= 4 ==> tail[2] == image[at + 2] && tail[3] == image[at + 3];
  }

  lemma Cut(image: seq<byte>, at: nat)
    requires Holds(image, at)
    ensures WellFormed(RecordAt(image, at))
    ensures image[at..] == Encode(RecordAt(image, at)) + image[at + 12 + |RecordAt(image, at).payload|..]
  {
    var tail := image[at..];
    assert tail[2] == image[at + 2] && tail[3] == image[at + 3];
  }

  lemma MoveOver(whole: seq<byte>, done: seq<byte>, tail: seq<byte>, next: seq<byte>, rest: seq<byte>)
    requires whole == done + tail && tail == next + rest
    ensures whole == done + next + rest
  {
  }

  /** One more record read. */
  lemma Advance(image: seq<byte>, rs: seq<Record>, at: nat)
    requires Holds(image, at) && Walked(image, rs, image[at..])
    ensures WellFormed(RecordAt(image, at))
    ensures Walked(image, rs + [RecordAt(image, at)], image[at + 12 + |RecordAt(image, at).payload|..])
  {
    var next := RecordAt(image, at);
    var rest := image[at + 12 + |next.payload|..];
    Cut(image, at);
    BodySnoc(rs, next);
    MoveOver(image[4..], Body(rs), image[at..], Encode(next), rest);
  }

  /** What the walk's two variables say about the records read so far. */
  ghost predicate Found(rs: seq<Record>, count: nat, ibs: bool, k: nat) {
    && AllWellFormed(rs) && !Offends(rs) && count == Transports(rs)
    && (count == 1 ==> Profile(rs, k) && (ibs <==> IbsBit(rs[k])))
  }

  lemma OffendsSnoc(rs: seq<Record>, next: Record)
    requires AllWellFormed(rs) && WellFormed(next)
    ensures Transports(rs + [next]) == Transports(rs) + if Tag(next) == 17 then 1 else 0
    ensures Offends(rs + [next]) <==>
            Offends(rs) || (Tag(next) == 17 && (|next.payload| != 6 || Transports(rs) > 0))
  {
    var more := rs + [next];
    assert more[..|rs|] == rs && more[|rs|] == next;
    if i :| 0 <= i < |rs| && Tag(rs[i]) == 17 && |rs[i].payload| != 6 {
      assert more[i] == rs[i];
    }
  }

  lemma FoundOther(rs: seq<Record>, next: Record, count: nat, ibs: bool, k: nat)
    requires Found(rs, count, ibs, k) && WellFormed(next) && Tag(next) != 17
    ensures Found(rs + [next], count, ibs, k)
  {
    OffendsSnoc(rs, next);
    assert count == 1 ==> (rs + [next])[k] == rs[k];
  }

  lemma FoundTransport(rs: seq<Record>, next: Record, ibs: bool, k: nat)
    requires Found(rs, 0, ibs, k) && WellFormed(next) && Tag(next) == 17 && |next.payload| == 6
    ensures Found(rs + [next], 1, IbsBit(next), |rs|)
  {
    OffendsSnoc(rs, next);
    NoneMeansNone(rs);
    assert (rs + [next])[|rs|] == next;
  }
}
