/** How the relay's stream continues: a positive cursor resumes after it, none joins the live stream. */
module Firehose {

  predicate Increasing(seqnos: seq<int>) {
    forall i, j :: 0 <= i < j < |seqnos| ==> seqnos[i] < seqnos[j]
  }

  /** How many commits a relay skips when asked to resume after `cursor`. */
  function ResumeIndex(seqnos: seq<int>, cursor: int): (r: nat)
    ensures r <= |seqnos|
    ensures forall i :: 0 <= i < r ==> seqnos[i] <= cursor
    ensures r < |seqnos| ==> seqnos[r] > cursor
  {
    if seqnos == [] || seqnos[0] > cursor then 0
    else
      var r := ResumeIndex(seqnos[1..], cursor);
      assert forall i :: 1 <= i < r + 1 ==> seqnos[i] == seqnos[1..][i - 1];
      r + 1
  }

  /** Where the stream starts: the request carries the cursor only if it is positive. */
  function StreamStart(seqnos: seq<int>, cursor: int, live: nat): nat {
    if cursor > 0 then ResumeIndex(seqnos, cursor) else live
  }

  lemma {:induction false} ResumeAfterCommit(seqnos: seq<int>, k: nat)
    requires k < |seqnos| && Increasing(seqnos)
    ensures ResumeIndex(seqnos, seqnos[k]) == k + 1
  {
    assert seqnos[0] <= seqnos[k];
    if k > 0 {
      ResumeAfterCommit(seqnos[1..], k - 1);
    }
  }

  lemma {:induction false} ResumeAtStart(seqnos: seq<int>, cursor: int)
    requires forall i :: 0 <= i < |seqnos| ==> cursor < seqnos[i]
    ensures ResumeIndex(seqnos, cursor) == 0
  {
  }
}
