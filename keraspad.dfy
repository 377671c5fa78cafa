/** Keras' `pad_sequences`, restricted to the arguments `preprocess_input`
    gives it: an explicit `maxlen`, `padding="post"`, and the defaults
    `truncating="pre"` and `value=0`. The library itself is not part of this
    model; this module states the behaviour the backend relies on. */
module KerasPad {
  import opened Errors

  function Zeros(n: nat): seq<int> {
    seq(n, _ => 0)
  }

  /** Python's `s[-maxLen:]`: the last `maxLen` entries, or all of `s` when it
      is shorter. For `maxLen == 0` the slice is `s[0:]`, the whole row. */
  function KeepLast(s: seq<int>, maxLen: nat): (t: seq<int>)
    ensures |t| <= |s| && t == s[|s| - |t|..]
    ensures maxLen > 0 ==> |t| == if |s| < maxLen then |s| else maxLen
    ensures maxLen == 0 ==> t == s
  {
    if maxLen == 0 || maxLen >= |s| then s else s[|s| - maxLen..]
  }

  /** A row can be padded unless it has two or more entries and the width is
      zero: numpy broadcasts a one-entry row into a width-zero slot. */
  predicate CanPad(s: seq<int>, maxLen: nat) {
    |s| <= 1 || maxLen > 0
  }

  /** One row of the padded batch. An empty row is skipped and stays all
      zeros; any other row is truncated at the front and then padded with
      zeros at the back. A truncated row wider than `maxLen` (only possible
      when `maxLen == 0`) is copied into a width-zero slot: numpy broadcasts a
      one-entry row into it and raises for a longer one. */
  function PadRow(s: seq<int>, maxLen: nat): (r: Result<seq<int>>)
    ensures r.Ok? <==> CanPad(s, maxLen)
    ensures r.Ok? ==> |r.value| == maxLen
    ensures r.Ok? && |s| <= maxLen ==>
      r.value[..|s|] == s && forall i :: |s| <= i < maxLen ==> r.value[i] == 0
    ensures r.Ok? && |s| > maxLen ==> r.value == s[|s| - maxLen..]
  {
    if |s| == 0 then Ok(Zeros(maxLen))
    else
      var t := KeepLast(s, maxLen);
      if |t| > maxLen then
        if |t| == 1 then Ok(Zeros(maxLen)) else Err(BroadcastError)
      else Ok(t + Zeros(maxLen - |t|))
  }

  /** `pad_sequences(seqs, maxlen=maxLen, padding="post")`: every row padded
      on its own; the call fails as soon as one row fails. */
  function PadSequences(seqs: seq<seq<int>>, maxLen: nat): (r: Result<seq<seq<int>>>)
    ensures r.Ok? <==> forall row :: row in seqs ==> CanPad(row, maxLen)
    ensures r.Ok? ==> |r.value| == |seqs|
    ensures r.Ok? ==> forall i :: 0 <= i < |seqs| ==> r.value[i] == PadRow(seqs[i], maxLen).value
  {
    if seqs == [] then Ok([])
    else
      var first, rest := PadRow(seqs[0], maxLen), PadSequences(seqs[1..], maxLen);
      assert forall i :: 0 < i < |seqs| ==> seqs[i] == seqs[1..][i - 1];
      if first.Err? then Err(first.error)
      else if rest.Err? then
        Err(rest.error)
      else
        var rows := [first.value] + rest.value;
        assert forall i :: 0 < i < |seqs| ==> rows[i] == rest.value[i - 1];
        Ok(rows)
  }
}
