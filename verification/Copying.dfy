/** copyWithCounter: moves bytes from a reader to a writer and counts those the writer took. */
module Copying {
  import opened Prelude
  import opened Links

  const BUFFER_SIZE: nat := 32 * 1024

  datatype After = More | Eof | ReadError

  /** One turn of the loop: what Read returned, and what Write made of it when there was anything to write. */
  datatype Turn = Turn(data: seq<byte>, after: After, accepted: nat, writeFailed: bool)

  datatype Outcome = Running | Done | WriteFailed | ShortWrite | ReadFailed

  predicate Possible(turns: seq<Turn>) {
    forall k :: 0 <= k < |turns| ==> |turns[k].data| <= BUFFER_SIZE && turns[k].accepted <= |turns[k].data|
  }

  /** The turn that ends the copy, if it ends: a refused write first, else the reader's end. */
  function EndOf(t: Turn): Option<Outcome> {
    if t.data != [] && t.writeFailed then Some(WriteFailed)
    else if t.data != [] && t.accepted != |t.data| then Some(ShortWrite)
    else if t.after.Eof? then Some(Done)
    else if t.after.ReadError? then Some(ReadFailed)
    else None
  }

  /** What has been read up to and including turn k. */
  function Source(turns: seq<Turn>, k: nat): seq<byte>
    requires k <= |turns|
  {
    if k == 0 then [] else Source(turns, k - 1) + turns[k - 1].data
  }

  /** What the writer has taken when turn k - 1 was the last. */
  function Accepted(turns: seq<Turn>, k: nat): seq<byte>
    requires Possible(turns) && k <= |turns|
  {
    if k == 0 then [] else Source(turns, k - 1) + turns[k - 1].data[..turns[k - 1].accepted]
  }

  /** The number of turns taken: up to the first one that ends the copy. */
  function Taken(turns: seq<Turn>): (n: nat)
    ensures n <= |turns|
    ensures forall k :: 0 <= k < n - 1 ==> EndOf(turns[k]).None?
    ensures n > 0 && EndOf(turns[n - 1]).None? ==> n == |turns|
  {
    if turns == [] then 0
    else if EndOf(turns[0]).Some? then 1
    else
      var n := Taken(turns[1..]);
      assert forall k :: 0 < k < n ==> turns[k] == turns[1..][k - 1];
      1 + n
  }

  /**
   * The writer gets a prefix of what was read; the total returned and the growth of
   * the counter are the length of that prefix; and it is all that was read unless
   * a write was refused.
   */
  method CopyWithCounter(turns: seq<Turn>, counter: Link?) returns (total: int, outcome: Outcome, written: seq<byte>)
    requires Possible(turns)
    modifies (if counter == null then {} else {counter})`BytesIn
    ensures total == |written| && (counter != null ==> counter.BytesIn == old(counter.BytesIn) + total)
    ensures written == Accepted(turns, Taken(turns)) && written <= Source(turns, Taken(turns))
    ensures written == Source(turns, Taken(turns)) || outcome.WriteFailed? || outcome.ShortWrite?
    ensures outcome == if Taken(turns) > 0 && EndOf(turns[Taken(turns) - 1]).Some?
                       then EndOf(turns[Taken(turns) - 1]).value else Running
  {
    total, outcome, written := 0, Running, [];
    for k := 0 to |turns|
      invariant total == |written| && written == Source(turns, k) && outcome == Running
      invariant counter != null ==> counter.BytesIn == old(counter.BytesIn) + total
      invariant forall j :: 0 <= j < k ==> EndOf(turns[j]).None?
    {
      TakenIs(turns, k);
      var t := turns[k];
      if t.data != [] {
        written := written + t.data[..t.accepted];
        total := total + t.accepted;
        if counter != null {
          counter.BytesIn := counter.BytesIn + t.accepted;
        }
        if t.writeFailed {
          outcome := WriteFailed;
          return;
        }
        if |t.data| != t.accepted {
          outcome := ShortWrite;
          return;
        }
      }
      if !t.after.More? {
        outcome := if t.after.Eof? then Done else ReadFailed;
        return;
      }
    }
    TakenAll(turns);
    AllAccepted(turns);
  }

  lemma AllAccepted(turns: seq<Turn>)
    requires Possible(turns) && forall j :: 0 <= j < |turns| ==> EndOf(turns[j]).None?
    ensures Accepted(turns, |turns|) == Source(turns, |turns|)
  {
  }

  lemma {:induction false} TakenIs(turns: seq<Turn>, k: nat)
    requires k < |turns| && forall j :: 0 <= j < k ==> EndOf(turns[j]).None?
    ensures EndOf(turns[k]).Some? ==> Taken(turns) == k + 1
    decreases k
  {
    if k > 0 {
      assert turns[1..][k - 1] == turns[k];
      TakenIs(turns[1..], k - 1);
    }
  }

  lemma {:induction false} TakenAll(turns: seq<Turn>)
    requires forall j :: 0 <= j < |turns| ==> EndOf(turns[j]).None?
    ensures Taken(turns) == |turns|
    decreases |turns|
  {
    if turns != [] {
      TakenAll(turns[1..]);
    }
  }
}
