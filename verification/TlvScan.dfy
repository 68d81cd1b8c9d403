/** The scan of a Token-2022 account for its confidential-transfer extension, against an encoder
    of extension records. */
module TlvScan {
  import opened Common

  type byte = x: int | 0 <= x < 256

  /** Where the extensions of a token account begin. */
  const FIRST_RECORD := 166

  const CONFIDENTIAL_TRANSFER: u16 := 5

  /** The available balance within the extension: approved flag, key and two ciphertexts precede it. */
  const BALANCE_START := 1 + 32 + 64 + 64
  const BALANCE_LENGTH := 64

  function ReadU16(data: seq<byte>, offset: nat): u16
    requires offset + 2 <= |data|
  {
    var low: int, high: int := data[offset], data[offset + 1];
    low + 256 * high
  }

  /** A part of a buffer; positions beyond the end are moved to the end. */
  function Subarray(data: seq<byte>, start: nat, end: nat): seq<byte>
    requires start <= end
  {
    data[Min(start, |data|)..Min(end, |data|)]
  }

  /** Where the payload of the first confidential-transfer record at or after `offset` begins. */
  function Find(data: seq<byte>, offset: nat): Option<nat>
    decreases |data| - offset
  {
    if offset + 4 > |data| then None
    else
      var kind, length := ReadU16(data, offset), ReadU16(data, offset + 2);
      if kind == 0 && length == 0 then None
      else if kind == CONFIDENTIAL_TRANSFER then Some(offset + 4)
      else Find(data, offset + 4 + length)
  }

  function AvailableBalance(data: seq<byte>): Option<seq<byte>> {
    match Find(data, FIRST_RECORD)
    case Some(start) => Some(Subarray(data, start + BALANCE_START, start + BALANCE_START + BALANCE_LENGTH))
    case None => None
  }

  /** The program's loop. It ends on every input. */
  method ReadAvailableBalance(data: seq<byte>) returns (r: Option<seq<byte>>)
    ensures r == AvailableBalance(data)
  {
    var offset := FIRST_RECORD;
    while offset + 4 <= |data|
      invariant FIRST_RECORD <= offset && Find(data, FIRST_RECORD) == Find(data, offset)
      decreases |data| - offset
    {
      var kind := ReadU16(data, offset);
      var length := ReadU16(data, offset + 2);
      if kind == 0 && length == 0 {
        break;
      }
      if kind == CONFIDENTIAL_TRANSFER {
        var start := offset + 4 + BALANCE_START;
        return Some(Subarray(data, start, start + BALANCE_LENGTH));
      }
      offset := offset + 4 + length;
    }
    return None;
  }

  // ---------------------------------------------------------------- the format

  datatype Record = Record(kind: u16, payload: seq<byte>)

  /** A record whose length fits its field and which does not read as the end of the list. */
  type Entry = r: Record | |r.payload| <= 0xFFFF && !(r.kind == 0 && r.payload == []) witness Record(1, [])

  function EncodeOne(r: Entry): (e: seq<byte>)
    ensures |e| == 4 + |r.payload|
  {
    var length: u16 := |r.payload|;
    [r.kind % 256, r.kind / 256, length % 256, length / 256] + r.payload
  }

  function Encode(rs: seq<Entry>): seq<byte> {
    if rs == [] then [] else EncodeOne(rs[0]) + Encode(rs[1..])
  }

  lemma HeaderRead(data: seq<byte>, offset: nat, r: Entry, tail: seq<byte>)
    requires offset <= |data| && data[offset..] == EncodeOne(r) + tail
    ensures |data| == offset + 4 + |r.payload| + |tail|
    ensures ReadU16(data, offset) == r.kind && ReadU16(data, offset + 2) == |r.payload|
    ensures data[offset + 4..] == r.payload + tail
    ensures data[offset + 4 + |r.payload|..] == tail
  {
    var e := EncodeOne(r) + tail;
    assert |data[offset..]| == |e|;
    assert data[offset] == data[offset..][0] == e[0] && data[offset + 1] == data[offset..][1] == e[1];
    assert data[offset + 2] == data[offset..][2] == e[2] && data[offset + 3] == data[offset..][3] == e[3];
    assert e[4..] == r.payload + tail;
    assert e[4 + |r.payload|..] == tail;
    assert data[offset + 4..] == data[offset..][4..];
    assert data[offset + 4 + |r.payload|..] == data[offset..][4 + |r.payload|..];
  }

  lemma FindSkipsOne(data: seq<byte>, offset: nat, r: Entry, tail: seq<byte>)
    requires r.kind != CONFIDENTIAL_TRANSFER
    requires offset <= |data| && data[offset..] == EncodeOne(r) + tail
    ensures offset + |EncodeOne(r)| <= |data| && data[offset + |EncodeOne(r)|..] == tail
    ensures Find(data, offset) == Find(data, offset + |EncodeOne(r)|)
  {
    HeaderRead(data, offset, r, tail);
    SliceAfter(data, offset, EncodeOne(r), tail);
    assert |EncodeOne(r)| == 4 + |r.payload|;
  }

  /** What follows the first of two joined parts. */
  lemma SliceAfter(data: seq<byte>, offset: nat, first: seq<byte>, second: seq<byte>)
    requires offset <= |data| && data[offset..] == first + second
    ensures |data| == offset + |first| + |second| && data[offset + |first|..] == second
  {
    assert data[offset..][|first|..] == second;
    assert data[offset + |first|..] == data[offset..][|first|..];
  }

  lemma Associate(a: seq<byte>, b: seq<byte>, c: seq<byte>)
    ensures a + b + c == a + (b + c)
  {}

  /** Whatever does not change over one record of another kind does not change over many. */
  lemma {:induction false} SkipInduction(data: seq<byte>, offset: nat, rs: seq<Entry>, rest: seq<byte>, f: nat -> Option<nat>)
    requires forall i | 0 <= i < |rs| :: rs[i].kind != CONFIDENTIAL_TRANSFER
    requires offset <= |data| && data[offset..] == Encode(rs) + rest
    requires forall o: nat, r: Entry, tail |
               r.kind != CONFIDENTIAL_TRANSFER && o <= |data| && data[o..] == EncodeOne(r) + tail :: f(o) == f(o + |EncodeOne(r)|)
    ensures f(offset) == f(offset + |Encode(rs)|)
    decreases |rs|
  {
    if rs != [] {
      var one, others := EncodeOne(rs[0]), Encode(rs[1..]);
      Associate(one, others, rest);
      SliceAfter(data, offset, one, others + rest);
      SkipInduction(data, offset + |one|, rs[1..], rest, f);
      assert |Encode(rs)| == |one| + |others|;
    }
  }

  function Finder(data: seq<byte>): nat -> Option<nat> {
    o => Find(data, o)
  }

  lemma FinderSkips(data: seq<byte>)
    ensures forall o: nat, r: Entry, tail |
              r.kind != CONFIDENTIAL_TRANSFER && o <= |data| && data[o..] == EncodeOne(r) + tail ::
              Finder(data)(o) == Finder(data)(o + |EncodeOne(r)|)
  {
    forall o: nat, r: Entry, tail | r.kind != CONFIDENTIAL_TRANSFER && o <= |data| && data[o..] == EncodeOne(r) + tail
      ensures Finder(data)(o) == Finder(data)(o + |EncodeOne(r)|)
    {
      FindSkipsOne(data, o, r, tail);
    }
  }

  /** Records of other kinds are skipped, whatever their payload and whatever comes before or after. */
  lemma FindSkips(data: seq<byte>, offset: nat, rs: seq<Entry>, rest: seq<byte>)
    requires forall i | 0 <= i < |rs| :: rs[i].kind != CONFIDENTIAL_TRANSFER
    requires offset <= |data| && data[offset..] == Encode(rs) + rest
    ensures Find(data, offset) == Find(data, offset + |Encode(rs)|)
  {
    FinderSkips(data);
    SkipInduction(data, offset, rs, rest, Finder(data));
    assert Finder(data)(offset) == Finder(data)(offset + |Encode(rs)|);
  }

  lemma EncodedParts(account: seq<byte>, before: seq<byte>, one: seq<byte>, after: seq<byte>)
    requires |account| == FIRST_RECORD
    ensures (account + before + one + after)[FIRST_RECORD..] == before + (one + after)
  {}

  /** What the scan returns of an account with the extension: the balance field of the first such
      record, which is all there is to it when the record is long enough to have that field. */
  lemma {:induction false} RoundTrip(account: seq<byte>, before: seq<Entry>, r: Entry, after: seq<byte>)
    requires |account| == FIRST_RECORD && r.kind == CONFIDENTIAL_TRANSFER
    requires forall i | 0 <= i < |before| :: before[i].kind != CONFIDENTIAL_TRANSFER
    ensures var found := AvailableBalance(account + Encode(before) + EncodeOne(r) + after);
            && found == Some(Subarray(r.payload + after, BALANCE_START, BALANCE_START + BALANCE_LENGTH))
            && (|r.payload| >= BALANCE_START + BALANCE_LENGTH ==>
                  found == Some(r.payload[BALANCE_START..BALANCE_START + BALANCE_LENGTH]))
  {
    var data := account + Encode(before) + EncodeOne(r) + after;
    var at := FIRST_RECORD + |Encode(before)|;
    EncodedParts(account, Encode(before), EncodeOne(r), after);
    FindSkips(data, FIRST_RECORD, before, EncodeOne(r) + after);
    SliceAfter(data, FIRST_RECORD, Encode(before), EncodeOne(r) + after);
    HeaderRead(data, at, r, after);
    SubarrayShift(data, at + 4, BALANCE_START, BALANCE_START + BALANCE_LENGTH);
    SubarrayWithin(r.payload, after, BALANCE_START, BALANCE_START + BALANCE_LENGTH);
  }

  lemma SubarrayWithin(payload: seq<byte>, after: seq<byte>, start: nat, end: nat)
    requires start <= end
    ensures end <= |payload| ==> Subarray(payload + after, start, end) == payload[start..end]
  {}

  lemma SubarrayShift(data: seq<byte>, n: nat, start: nat, end: nat)
    requires n <= |data| && start <= end
    ensures Subarray(data, n + start, n + end) == Subarray(data[n..], start, end)
  {}

  /** Without the extension the scan fails, whether the list ends with the data or with an empty
      record of type 0 and anything after it. */
  lemma {:induction false} NotFound(account: seq<byte>, rs: seq<Entry>, end: seq<byte>)
    requires |account| == FIRST_RECORD
    requires forall i | 0 <= i < |rs| :: rs[i].kind != CONFIDENTIAL_TRANSFER
    requires |end| < 4 || end[..4] == [0, 0, 0, 0]
    ensures AvailableBalance(account + Encode(rs) + end) == None
  {
    var data := account + Encode(rs) + end;
    var at := FIRST_RECORD + |Encode(rs)|;
    EncodedParts(account, Encode(rs), [], end);
    assert account + Encode(rs) + [] + end == data && [] + end == end;
    FindSkips(data, FIRST_RECORD, rs, end);
    SliceAfter(data, FIRST_RECORD, Encode(rs), end);
    EndRead(data, at, end);
  }

  lemma EndRead(data: seq<byte>, at: nat, end: seq<byte>)
    requires at <= |data| && data[at..] == end && (|end| < 4 || end[..4] == [0, 0, 0, 0])
    ensures Find(data, at) == None
  {
    if |end| >= 4 {
      assert data[at] == end[..4][0] && data[at + 1] == end[..4][1];
      assert data[at + 2] == end[..4][2] && data[at + 3] == end[..4][3];
    }
  }
}
