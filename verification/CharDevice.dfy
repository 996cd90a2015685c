/** The one-page character device (charDev.c): every write clears the page first, and the size is
    where the last write ended. Open files do not overlap: one session at a time. */
module CharDevice {
  import opened Common

  const PAGE_SIZE := 4096

  type Byte = b: int | 0 <= b < 256

  function Zeros(n: nat): (z: seq<Byte>)
    ensures |z| == n
  {
    seq(n, _ => 0)
  }

  /** A page of zeros with `bytes` at `start`. */
  function Image(start: nat, bytes: seq<Byte>): (page: seq<Byte>)
    requires start + |bytes| <= PAGE_SIZE
    ensures |page| == PAGE_SIZE
  {
    Zeros(start) + bytes + Zeros(PAGE_SIZE - start - |bytes|)
  }

  /** What m_write accepts of `data` at `offset`. */
  function Accepted(offset: nat, data: seq<Byte>): (a: seq<Byte>)
    requires offset <= PAGE_SIZE
    ensures offset + |a| <= PAGE_SIZE && a <= data
  {
    if |data| + offset > PAGE_SIZE then data[..PAGE_SIZE - offset] else data
  }

  // ---------- the driver ----------

  class CharDev {
    const page: array<Byte>
    var size: nat

    ghost predicate Valid()
      reads this
    {
      page.Length == PAGE_SIZE && size <= PAGE_SIZE
    }

    ghost function Contents(): seq<Byte>
      requires Valid()
      reads this, page
    {
      page[..size]
    }

    constructor ()
      ensures Valid() && size == 0 && fresh(page)
    {
      page := new Byte[PAGE_SIZE];
      size := 0;
    }

    /** m_read; `fault` is copy_to_user failing, which changes nothing. */
    method Read(offset: nat, n: nat, fault: bool) returns (data: Option<seq<Byte>>, newOffset: nat)
      requires Valid() && offset <= size
      ensures data.None? <==> fault
      ensures newOffset == offset + (if fault then 0 else |data.value|) <= size
      ensures !fault ==> data.value == Contents()[offset..newOffset]
      ensures !fault ==> newOffset == if n < size - offset then offset + n else size
    {
      var toRead := if n > size - offset then size - offset else n;
      if fault {
        return None, offset;
      }
      return Some(page[offset..offset + toRead]), offset + toRead;
    }

    /** m_write; a copy_from_user that fails after `copied` bytes has cleared the page all the same. */
    method Write(offset: nat, data: seq<Byte>, fault: bool, copied: nat) returns (written: Option<nat>, newOffset: nat)
      requires Valid() && offset <= PAGE_SIZE && copied <= |data| && copied <= PAGE_SIZE - offset
      modifies this, page
      ensures Valid() && (written.None? <==> fault)
      ensures !fault ==> written == Some(if |data| <= 4096 - offset then |data| else 4096 - offset)
      ensures !fault ==> newOffset == size == offset + written.value <= PAGE_SIZE
      ensures fault ==> size == old(size) && newOffset == offset
      ensures var n := if fault then copied else written.value;
        && page[offset..offset + n] == data[..n]
        && (forall k :: 0 <= k < PAGE_SIZE && !(offset <= k < offset + n) ==> page[k] == 0)
        && page[..] == Image(offset, data[..n])
    {
      var toWrite := if |data| + offset > PAGE_SIZE then PAGE_SIZE - offset else |data|;
      var n := if fault then copied else toWrite;
      var i := 0;
      while i < PAGE_SIZE
        invariant 0 <= i <= PAGE_SIZE && size == old(size)
        invariant forall k :: 0 <= k < i ==> page[k] == 0
      {
        page[i] := 0;
        i := i + 1;
      }
      i := 0;
      while i < n
        invariant 0 <= i <= n <= toWrite && size == old(size)
        invariant forall k :: 0 <= k < PAGE_SIZE ==> page[k] == if offset <= k < offset + i then data[k - offset] else 0
      {
        page[offset + i] := data[i];
        i := i + 1;
      }
      assert page[..] == Image(offset, data[..n]);
      if fault {
        return None, offset;
      }
      size := offset + toWrite;
      return Some(toWrite), size;
    }

    /** One operation of an open file at `offset`: the driver does what the session model says. */
    method Perform(offset: nat, op: Op) returns (newOffset: nat, out: seq<Byte>)
      requires Valid() && offset <= size
      requires op.Write? ==> op.copied <= |op.data| && op.copied <= PAGE_SIZE - offset
      modifies this, page
      ensures Valid() && newOffset <= size
      ensures var d := Device(old(page[..]), old(size), offset);
        Device(page[..], size, newOffset) == Apply(d, op) && out == Output(d, op)
    {
      match op {
        case Open =>
          newOffset, out := 0, [];
        case Read(n, fault) =>
          var data;
          data, newOffset := Read(offset, n, fault);
          out := if data.Some? then data.value else [];
          assert page[..][..size][offset..newOffset] == page[..][offset..newOffset];
        case Write(data, fault, copied) =>
          var written;
          written, newOffset := Write(offset, data, fault, copied);
          out := [];
          assert !fault ==> data[..written.value] == Accepted(offset, data);
      }
    }
  }

  // ---------- sessions ----------

  datatype Op =
    | Open
    | Read(n: nat, fault: bool)
    | Write(data: seq<Byte>, fault: bool, copied: nat)

  /** The page, the size, and the open file's offset. */
  datatype Device = Device(page: seq<Byte>, size: nat, offset: nat)

  predicate Init(d: Device) {
    |d.page| == PAGE_SIZE && d.size == 0 && d.offset == 0
  }

  /** Sessions can begin with any page. */
  lemma BeginsWith(page: seq<Byte>) returns (d: Device)
    requires |page| == PAGE_SIZE
    ensures Init(d) && d.page == page
  {
    d := Device(page, 0, 0);
  }

  predicate Possible(d: Device, op: Op) {
    op.Write? ==> d.offset <= PAGE_SIZE && op.copied <= |op.data| && op.copied <= PAGE_SIZE - d.offset
  }

  /** How far a read of n bytes advances. */
  function Advance(d: Device, n: nat): (k: nat)
    ensures k <= n && (d.offset <= d.size ==> d.offset + k <= d.size)
  {
    if d.offset + n > d.size then (if d.offset <= d.size then d.size - d.offset else 0) else n
  }

  function Apply(d: Device, op: Op): Device
    requires Possible(d, op)
  {
    match op
    case Open => d.(offset := 0)
    case Read(n, fault) => if fault then d else d.(offset := d.offset + Advance(d, n))
    case Write(data, fault, copied) =>
      var a := Accepted(d.offset, data);
      if fault then d.(page := Image(d.offset, data[..copied]))
      else Device(Image(d.offset, a), d.offset + |a|, d.offset + |a|)
  }

  /** What an operation returns to the reader. */
  function Output(d: Device, op: Op): seq<Byte> {
    if op.Read? && !op.fault && d.offset <= d.size <= |d.page| then d.page[d.offset..d.offset + Advance(d, op.n)] else []
  }

  ghost predicate IsRun(run: seq<Device>, ops: seq<Op>) {
    && |run| == |ops| + 1
    && forall k :: 0 <= k < |ops| ==> Possible(run[k], ops[k]) && run[k + 1] == Apply(run[k], ops[k])
  }

  /** offset <= size <= PAGE_SIZE, which is the length of the page. */
  ghost predicate Consistent(d: Device) {
    d.offset <= d.size <= PAGE_SIZE == |d.page|
  }

  lemma {:induction false} ConsistentAlways(run: seq<Device>, ops: seq<Op>, n: nat)
    requires IsRun(run, ops) && n < |run| && Init(run[0])
    ensures Consistent(run[n])
  {
    if n > 0 {
      ConsistentAlways(run, ops, n - 1);
      assert run[n] == Apply(run[n - 1], ops[n - 1]);
    }
  }

  /** Over any sequence of sessions the page is that of the last write: zeros but for the bytes that
      write put there; and if it succeeded the contents are zeros up to where it started, followed by
      as much of its data as the page had room for. */
  lemma ContentsAreLastWrite(run: seq<Device>, ops: seq<Op>, m: nat, n: nat)
    requires IsRun(run, ops) && m < n < |run| && Init(run[0])
    requires ops[m].Write? && forall k :: m < k < n ==> !ops[k].Write?
    ensures run[n].offset <= run[n].size <= PAGE_SIZE == |run[n].page|
    ensures var start, data, room := run[m].offset, ops[m].data, PAGE_SIZE - run[m].offset;
      && 0 <= room
      && (ops[m].fault ==> run[n].size == run[m].size && ops[m].copied <= |data| && ops[m].copied <= room)
      && (ops[m].fault ==> run[n].page == Zeros(start) + data[..ops[m].copied] + Zeros(room - ops[m].copied))
      && (!ops[m].fault ==> run[n].page[..run[n].size] == Zeros(start) + (if |data| <= room then data else data[..room]))
      && (!ops[m].fault ==> run[n].page[run[n].size..] == Zeros(PAGE_SIZE - run[n].size))
  {
    ConsistentAlways(run, ops, m);
    ConsistentAlways(run, ops, n);
    assert run[m + 1] == Apply(run[m], ops[m]);
    if !ops[m].fault {
      WriteLeaves(run[m], ops[m]);
    }
    ContentsStay(run, ops, m + 1, n);
  }

  /** Before the first write there are no contents. */
  lemma {:induction false} NothingBeforeFirstWrite(run: seq<Device>, ops: seq<Op>, n: nat)
    requires IsRun(run, ops) && n < |run| && Init(run[0]) && forall k :: 0 <= k < n ==> !ops[k].Write?
    ensures run[n].size == run[n].offset == 0
  {
    if n > 0 {
      NothingBeforeFirstWrite(run, ops, n - 1);
      assert run[n] == Apply(run[n - 1], ops[n - 1]);
    }
  }

  // ---------- reading back ----------

  /** Everything a session has read. */
  function Outputs(run: seq<Device>, ops: seq<Op>): seq<Byte>
    requires |run| > |ops|
  {
    if ops == [] then []
    else
      var n := |ops| - 1;
      Outputs(run, ops[..n]) + Output(run[n], ops[n])
  }

  /** How many bytes it has asked for, not counting reads that failed. */
  function Requested(ops: seq<Op>): nat {
    if ops == [] then 0
    else
      var n := |ops| - 1;
      Requested(ops[..n]) + (if ops[n].Read? && !ops[n].fault then ops[n].n else 0)
  }

  /** A session that started as d and has asked for so many bytes is now at d'. */
  predicate HasRead(d: Device, d': Device, asked: nat, out: seq<Byte>) {
    && d.offset <= d.size <= |d.page| && d'.page == d.page && d'.size == d.size
    && d'.offset == (if asked <= d.size - d.offset then d.offset + asked else d.size)
    && out == d.page[d.offset..d'.offset]
  }

  lemma HasReadMore(d: Device, d': Device, asked: nat, out: seq<Byte>, op: Op)
    requires HasRead(d, d', asked, out) && op.Read?
    ensures HasRead(d, Apply(d', op), if op.fault then asked else asked + op.n, out + Output(d', op))
  {
    var next := Apply(d', op).offset;
    assert d.page[d.offset..d'.offset] + d.page[d'.offset..next] == d.page[d.offset..next];
  }

  /** A session that only reads, in pieces of any sizes and with any failures in between, has read the
      contents from its starting offset as far as it asked and as they reach. */
  lemma {:induction false} PiecesArePrefix(run: seq<Device>, ops: seq<Op>, n: nat)
    requires IsRun(run, ops) && n < |run| && run[0].offset <= run[0].size <= |run[0].page|
    requires forall k :: 0 <= k < n ==> ops[k].Read?
    ensures HasRead(run[0], run[n], Requested(ops[..n]), Outputs(run, ops[..n]))
  {
    if n > 0 {
      PiecesArePrefix(run, ops, n - 1);
      HasReadMore(run[0], run[n - 1], Requested(ops[..n - 1]), Outputs(run, ops[..n - 1]), ops[n - 1]);
      assert ops[..n][..n - 1] == ops[..n - 1];
    }
  }

  /** Operations without a successful or failed write leave the contents alone. */
  lemma {:induction false} ContentsStay(run: seq<Device>, ops: seq<Op>, m: nat, n: nat)
    requires IsRun(run, ops) && m <= n < |run| && forall k :: m <= k < n ==> !ops[k].Write?
    ensures run[n].page == run[m].page && run[n].size == run[m].size
  {
    if m < n {
      ContentsStay(run, ops, m, n - 1);
      assert run[n] == Apply(run[n - 1], ops[n - 1]);
    }
  }

  lemma SuffixIsRun(run: seq<Device>, ops: seq<Op>, m: nat)
    requires IsRun(run, ops) && m < |run|
    ensures IsRun(run[m..], ops[m..])
  {
    forall k | 0 <= k < |ops[m..]|
      ensures Possible(run[m..][k], ops[m..][k]) && run[m..][k + 1] == Apply(run[m..][k], ops[m..][k])
    {
      assert ops[m..][k] == ops[m + k] && run[m..][k] == run[m + k] && run[m..][k + 1] == run[m + k + 1];
    }
  }

  /** What is written is read back: after a successful write of `data`, with no further write, a session
      opened later (operation m + 1 or after) that reads in pieces of any sizes gets zeros up to where
      the write started followed by as much of `data` as the page had room for: as far as it asks, all
      of it as soon as it has asked for enough, and nothing beyond. */
  lemma LaterSessionReadsBack(run: seq<Device>, ops: seq<Op>, m: nat, k: nat)
    requires IsRun(run, ops) && Init(run[0]) && m < k < |ops|
    requires ops[m].Write? && !ops[m].fault && ops[k] == Open
    requires forall j :: m < j < k ==> !ops[j].Write?
    requires forall j :: k < j < |ops| ==> ops[j].Read?
    ensures run[m].offset <= PAGE_SIZE
    ensures var start, data, asked := run[m].offset, ops[m].data, Requested(ops[k + 1..]);
      var text := Zeros(start) + (if start + |data| <= PAGE_SIZE then data else data[..PAGE_SIZE - start]);
      Outputs(run[k + 1..], ops[k + 1..]) == if asked <= |text| then text[..asked] else text
  {
    ConsistentAlways(run, ops, m);
    WriteLeaves(run[m], ops[m]);
    ContentsStay(run, ops, m + 1, k);
    SuffixIsRun(run, ops, k + 1);
    var n, d := |ops| - k - 1, run[k + 1];
    PiecesArePrefix(run[k + 1..], ops[k + 1..], n);
    assert ops[k + 1..][..n] == ops[k + 1..];
    assert forall e :: 0 <= e <= d.size ==> d.page[0..e] == d.page[..d.size][..e];
  }

  lemma WriteLeaves(d: Device, op: Op)
    requires Possible(d, op) && op.Write? && !op.fault
    ensures d.offset <= PAGE_SIZE
    ensures var start, data, d' := d.offset, op.data, Apply(d, op);
      && d'.size <= |d'.page| == PAGE_SIZE && d'.page[d'.size..] == Zeros(PAGE_SIZE - d'.size)
      && d'.page[..d'.size] == Zeros(start) + (if start + |data| <= PAGE_SIZE then data else data[..PAGE_SIZE - start])
  {
  }
}
