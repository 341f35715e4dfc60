/** The ring buffer of recent connections, which shows the end of an unbounded log. */
module RecentConns {
  datatype ConnRecord = ConnRecord(ts: int, link: string, target: string)

  /** The last n records of the log, or all of it. */
  function LastOf(log: seq<ConnRecord>, n: nat): seq<ConnRecord> {
    if |log| <= n then log else log[|log| - n..]
  }

  class RecentConns {
    var buf: array<ConnRecord>
    var size: nat
    var head: nat
    var count: nat
    /** Every record ever added, oldest first. */
    ghost var log: seq<ConnRecord>

    ghost predicate Valid()
      reads this, buf
    {
      && size >= 1 && buf.Length == size && head < size
      && count == |LastOf(log, size)|
      && (count < size ==> head == 0)
      && forall i :: 0 <= i < count ==> buf[Slot(i)] == LastOf(log, size)[i]
    }

    /** Where the i-th oldest record is kept. */
    function Slot(i: nat): (s: nat)
      requires size >= 1 && head < size && i <= size
      reads this
      ensures s < size && s == (if head + i < size then head + i else head + i - size)
    {
      ModIs(head + i, size);
      (head + i) % size
    }

    constructor (n: nat, blank: ConnRecord)
      requires n >= 1
      ensures Valid() && size == n && log == [] && fresh(buf)
    {
      buf := new ConnRecord[n](i => blank);
      size, head, count, log := n, 0, 0, [];
    }

    method Add(rec: ConnRecord)
      requires Valid()
      modifies this`head, this`count, this`log, buf
      ensures Valid() && log == old(log) + [rec]
    {
      if count < size {
        buf[Slot(count)] := rec;
        count := count + 1;
      } else {
        buf[head] := rec;
        head := Slot(1);
      }
      log := log + [rec];
    }

    method Snapshot() returns (out: array<ConnRecord>)
      requires Valid()
      ensures fresh(out) && out[..] == LastOf(log, size)
    {
      out := new ConnRecord[count](i => ConnRecord(0, "", ""));
      for i := 0 to count
        invariant forall k :: 0 <= k < i ==> out[k] == LastOf(log, size)[k]
      {
        out[i] := buf[Slot(i)];
      }
    }
  }

  lemma ModIs(x: nat, n: nat)
    requires x < 2 * n
    ensures x % n == if x < n then x else x - n
  {
    if x >= n {
      assert x == 1 * n + (x - n);
    }
  }
}
