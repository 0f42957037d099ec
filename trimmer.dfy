/**
 * The sample trimmer: for every note file it drops the leading and
 * trailing silence of the stereo recording, keeping the samples from the
 * first loud one up to (not including) the last loud one.
 */
module Trimmer {
  import opened Naming

  /** A sample counts as loud from this magnitude on. */
  const THRESHOLD: int := 500

  /** The note names tried, each with the octaves 0 to 8. */
  const KEYS: seq<string> := ["A", "B", "C", "D", "E", "F", "G", "Ab", "Bb", "Cb", "Db", "Eb", "Fb", "Gb"]

  /** A 16-bit PCM value. */
  newtype Int16 = x: int | -0x8000 <= x < 0x8000

  /** One stereo frame of the recording. */
  datatype Sample = Sample(left: Int16, right: Int16)

  function Abs(x: int): (r: nat)
    ensures r == x || r == -x
  {
    if x < 0 then -x else x
  }

  /** The absolute value numpy computes on a 16-bit value: -32768 has no 16-bit opposite and stays negative. */
  function Abs16(x: Int16): (r: int)
    ensures x != -0x8000 ==> r == Abs(x as int)
    ensures x == -0x8000 ==> r < 0
  {
    if x == -0x8000 then -0x8000 else Abs(x as int)
  }

  /** The loudness test as written, on 16-bit values. */
  predicate LoudAsWritten(s: Sample)
  {
    Abs16(s.left) >= THRESHOLD || Abs16(s.right) >= THRESHOLD
  }

  /** A frame is loud when either channel's magnitude reaches THRESHOLD. */
  predicate Loud(s: Sample)
  {
    Abs(s.left as int) >= THRESHOLD || Abs(s.right as int) >= THRESHOLD
  }

  /** The first index from i on whose frame passes loud, or 0 when none does. */
  function FirstLoudFrom(data: seq<Sample>, loud: Sample -> bool, i: nat): (r: nat)
    requires i <= |data|
    ensures (i <= r < |data| && loud(data[r]) && forall j :: i <= j < r ==> !loud(data[j]))
         || (r == 0 && forall j :: i <= j < |data| ==> !loud(data[j]))
    decreases |data| - i
  {
    if i == |data| then 0
    else if loud(data[i]) then i
    else FirstLoudFrom(data, loud, i + 1)
  }

  /** start_crop: the first loud index, or 0 when no frame is loud. */
  function FirstLoud(data: seq<Sample>, loud: Sample -> bool): (r: nat)
    ensures (r < |data| && loud(data[r]) && forall j :: 0 <= j < r ==> !loud(data[j]))
         || (r == 0 && forall j :: 0 <= j < |data| ==> !loud(data[j]))
  {
    FirstLoudFrom(data, loud, 0)
  }

  /** The last loud index among 1 to ind, or 0 when none of them is loud. */
  function LastLoudDown(data: seq<Sample>, loud: Sample -> bool, ind: nat): (r: nat)
    requires ind < |data|
    ensures (1 <= r <= ind && loud(data[r]) && forall j :: r < j <= ind ==> !loud(data[j]))
         || (r == 0 && forall j :: 1 <= j <= ind ==> !loud(data[j]))
  {
    if ind == 0 then 0
    else if loud(data[ind]) then ind
    else LastLoudDown(data, loud, ind - 1)
  }

  /** end_crop: the last loud index, looking at 1 to len - 1 only, or 0 when none is loud. */
  function LastLoud(data: seq<Sample>, loud: Sample -> bool): (r: nat)
    ensures (1 <= r < |data| && loud(data[r]) && forall j :: r < j < |data| ==> !loud(data[j]))
         || (r == 0 && forall j :: 1 <= j < |data| ==> !loud(data[j]))
  {
    if |data| == 0 then 0 else LastLoudDown(data, loud, |data| - 1)
  }

  /** The start is never past the end. */
  lemma StartNotAfterEnd(data: seq<Sample>, loud: Sample -> bool)
    ensures FirstLoud(data, loud) <= LastLoud(data, loud)
  {
  }

  /** Python's data[a:b] for 0 <= a, b <= |data|: empty when a is not before b. */
  function Slice(data: seq<Sample>, a: nat, b: nat): (r: seq<Sample>)
    requires a <= |data| && b <= |data|
    ensures a <= b ==> r == data[a..b]
    ensures a >= b ==> r == []
  {
    if a < b then data[a..b] else []
  }

  /** The frames written back for a recording. */
  function Trim(data: seq<Sample>): seq<Sample>
  {
    Slice(data, FirstLoud(data, Loud), LastLoud(data, Loud))
  }

  /**
   * The written frames are the recording's own, in order, from the first
   * loud one up to just before the last loud one; a silent recording (or
   * one loud only at index 0) gives nothing.
   */
  lemma TrimSpan(data: seq<Sample>)
    ensures FirstLoud(data, Loud) <= LastLoud(data, Loud) <= |data|
    ensures Trim(data) == data[FirstLoud(data, Loud)..LastLoud(data, Loud)]
    ensures (forall j :: 1 <= j < |data| ==> !Loud(data[j])) ==> Trim(data) == []
    ensures LastLoud(data, Loud) > 0 ==> Loud(data[LastLoud(data, Loud)]) && Loud(data[FirstLoud(data, Loud)])
  {
    StartNotAfterEnd(data, Loud);
  }

  /** trim_note on one recording: the forward scan, the backward scan, then the slice written back. */
  method TrimNote(data: seq<Sample>) returns (startCrop: nat, endCrop: nat, written: seq<Sample>)
    ensures startCrop == FirstLoud(data, Loud) && endCrop == LastLoud(data, Loud)
    ensures written == Trim(data)
  {
    startCrop := 0;
    endCrop := 0;
    for ind := 0 to |data|
      invariant startCrop == 0 && forall j :: 0 <= j < ind ==> !Loud(data[j])
    {
      if Abs(data[ind].left as int) >= THRESHOLD || Abs(data[ind].right as int) >= THRESHOLD {
        startCrop := ind;
        break;
      }
    }
    var length := |data| - 1;
    for i := 0 to if length < 0 then 0 else length
      invariant endCrop == 0 && forall j :: length - i < j <= length ==> !Loud(data[j])
    {
      var ind := length - i;
      if Abs(data[ind].left as int) >= THRESHOLD || Abs(data[ind].right as int) >= THRESHOLD {
        endCrop := ind;
        break;
      }
    }
    written := Slice(data, startCrop, endCrop);
  }

  // ---------------------------------------------------------------------
  // The loudness test on 16-bit values

  /** Away from -32768 the test as written is the intended one. */
  lemma AsWrittenAgreesAwayFromMinimum(s: Sample)
    requires s.left != -0x8000 && s.right != -0x8000
    ensures LoudAsWritten(s) == Loud(s)
  {
  }

  /**
   * A full-scale negative frame is not loud as written, so the trim starts
   * after it: [0, -32768, 1000, 0] on the left channel keeps nothing as
   * written, where the frame at index 1 should be kept.
   */
  lemma FullScaleNegativeMissed()
    ensures !LoudAsWritten(Sample(-0x8000, 0)) && Loud(Sample(-0x8000, 0))
    ensures var data := [Sample(0, 0), Sample(-0x8000, 0), Sample(1000, 0), Sample(0, 0)];
      && FirstLoud(data, LoudAsWritten) == 2 && LastLoud(data, LoudAsWritten) == 2
      && Slice(data, FirstLoud(data, LoudAsWritten), LastLoud(data, LoudAsWritten)) == []
      && Trim(data) == [Sample(-0x8000, 0)]
  {
    var data := [Sample(0, 0), Sample(-0x8000, 0), Sample(1000, 0), Sample(0, 0)];
    assert !LoudAsWritten(data[0]) && !LoudAsWritten(data[1]) && LoudAsWritten(data[2]) && !LoudAsWritten(data[3]);
    assert !Loud(data[0]) && Loud(data[1]) && Loud(data[2]) && !Loud(data[3]);
    assert data[1..2] == [Sample(-0x8000, 0)];
  }

  // ---------------------------------------------------------------------
  // The whole run

  /** What one attempt adds: the trimmed frames of a file that exists, nothing for a missing one. */
  function AttemptOutcome(files: map<string, seq<Sample>>, name: string): seq<(string, seq<Sample>)>
  {
    if name in files then [(name, Trim(files[name]))] else []
  }

  /** The outcomes of key KEYS[ki] with the octaves 0 to num - 1. */
  function KeyOutcomes(files: map<string, seq<Sample>>, ki: nat, num: nat): seq<(string, seq<Sample>)>
    requires ki < |KEYS| && num <= 9
  {
    if num == 0 then []
    else KeyOutcomes(files, ki, num - 1) + AttemptOutcome(files, WithDigit(KEYS[ki], num - 1))
  }

  /** The outcomes of the first ki keys, key by key. */
  function Outcomes(files: map<string, seq<Sample>>, ki: nat): seq<(string, seq<Sample>)>
    requires ki <= |KEYS|
  {
    if ki == 0 then [] else Outcomes(files, ki - 1) + KeyOutcomes(files, ki - 1, 9)
  }

  /** The inner loop of main: key KEYS[ki] with the octaves 0 to 8, counting each file trimmed. */
  method TrimKey(files: map<string, seq<Sample>>, ki: nat, written: seq<(string, seq<Sample>)>, total: nat)
    returns (written': seq<(string, seq<Sample>)>, total': nat)
    requires ki < |KEYS| && total == |written|
    ensures written' == written + KeyOutcomes(files, ki, 9) && total' == |written'|
  {
    written', total' := written, total;
    for num := 0 to 9
      invariant written' == written + KeyOutcomes(files, ki, num) && total' == |written'|
    {
      var noteName := WithDigit(KEYS[ki], num);
      if noteName in files {
        var _, _, data := TrimNote(files[noteName]);
        written' := written' + [(noteName, data)];
        total' := total' + 1;
      }
    }
  }

  /**
   * main: every key with every octave 0 to 8, in that order; a missing
   * file is skipped, every other one is trimmed and counted.
   */
  method TrimAll(files: map<string, seq<Sample>>) returns (written: seq<(string, seq<Sample>)>, totalTrimmed: nat)
    ensures written == Outcomes(files, |KEYS|)
    ensures totalTrimmed == |written|
  {
    written := [];
    totalTrimmed := 0;
    for ki := 0 to |KEYS|
      invariant written == Outcomes(files, ki) && totalTrimmed == |written|
    {
      written, totalTrimmed := TrimKey(files, ki, written, totalTrimmed);
    }
  }

  /** The key names tried are all different. */
  lemma KeysDistinct(a: nat, b: nat)
    requires a < |KEYS| && b < |KEYS| && KEYS[a] == KEYS[b]
    ensures a == b
  {
    var keys := KEYS;
    assert |keys[a]| == |keys[b]| && keys[a][0] == keys[b][0];
    if |keys[a]| == 2 {
      assert keys[a][1] == keys[b][1];
    }
  }

  /** At most one outcome per attempt: no more than 9 per key, 126 in all. */
  lemma {:induction false} OutcomesLength(files: map<string, seq<Sample>>, ki: nat)
    requires ki <= |KEYS|
    ensures |Outcomes(files, ki)| <= 9 * ki
  {
    if ki > 0 {
      OutcomesLength(files, ki - 1);
      KeyOutcomesLength(files, ki - 1, 9);
    }
  }

  lemma {:induction false} KeyOutcomesLength(files: map<string, seq<Sample>>, ki: nat, num: nat)
    requires ki < |KEYS| && num <= 9
    ensures |KeyOutcomes(files, ki, num)| <= num
  {
    if num > 0 {
      KeyOutcomesLength(files, ki, num - 1);
    }
  }

  /** Every outcome of a key is for one of its octaves tried so far whose file exists. */
  lemma {:induction false} KeyOutcomeAttempted(files: map<string, seq<Sample>>, ki: nat, num: nat, i: nat) returns (d: nat)
    requires ki < |KEYS| && num <= 9 && i < |KeyOutcomes(files, ki, num)|
    ensures d < num && KeyOutcomes(files, ki, num)[i].0 == WithDigit(KEYS[ki], d) && WithDigit(KEYS[ki], d) in files
  {
    if i < |KeyOutcomes(files, ki, num - 1)| {
      d := KeyOutcomeAttempted(files, ki, num - 1, i);
    } else {
      d := num - 1;
    }
  }

  /** Every outcome is for an attempted name whose file exists. */
  lemma {:induction false} OutcomeAttempted(files: map<string, seq<Sample>>, ki: nat, i: nat) returns (a: nat, d: nat)
    requires ki <= |KEYS| && i < |Outcomes(files, ki)|
    ensures a < ki && d < 9 && Outcomes(files, ki)[i].0 == WithDigit(KEYS[a], d) && WithDigit(KEYS[a], d) in files
  {
    var earlier := Outcomes(files, ki - 1);
    if i < |earlier| {
      a, d := OutcomeAttempted(files, ki - 1, i);
    } else {
      a := ki - 1;
      d := KeyOutcomeAttempted(files, ki - 1, 9, i - |earlier|);
    }
  }

  /** Every attempted octave of a key whose file exists has an outcome. */
  lemma {:induction false} KeyAttemptRecorded(files: map<string, seq<Sample>>, ki: nat, num: nat, d: nat) returns (i: nat)
    requires ki < |KEYS| && d < num <= 9 && WithDigit(KEYS[ki], d) in files
    ensures i < |KeyOutcomes(files, ki, num)| && KeyOutcomes(files, ki, num)[i].0 == WithDigit(KEYS[ki], d)
  {
    if d < num - 1 {
      i := KeyAttemptRecorded(files, ki, num - 1, d);
    } else {
      i := |KeyOutcomes(files, ki, num - 1)|;
    }
  }

  /** Every attempted name whose file exists has an outcome. */
  lemma {:induction false} AttemptRecorded(files: map<string, seq<Sample>>, ki: nat, a: nat, d: nat) returns (i: nat)
    requires ki <= |KEYS| && a < ki && d < 9 && WithDigit(KEYS[a], d) in files
    ensures i < |Outcomes(files, ki)| && Outcomes(files, ki)[i].0 == WithDigit(KEYS[a], d)
  {
    var earlier := Outcomes(files, ki - 1);
    var last := KeyOutcomes(files, ki - 1, 9);
    assert Outcomes(files, ki) == earlier + last;
    if a < ki - 1 {
      i := AttemptRecorded(files, ki - 1, a, d);
      assert (earlier + last)[i] == earlier[i];
    } else {
      var j := KeyAttemptRecorded(files, ki - 1, 9, d);
      i := |earlier| + j;
      assert (earlier + last)[i] == last[j];
    }
  }

  /** A key's outcomes name different files. */
  lemma {:induction false} KeyOutcomesDistinct(files: map<string, seq<Sample>>, ki: nat, num: nat)
    requires ki < |KEYS| && num <= 9
    ensures forall i, j :: 0 <= i < j < |KeyOutcomes(files, ki, num)| ==>
      KeyOutcomes(files, ki, num)[i].0 != KeyOutcomes(files, ki, num)[j].0
  {
    if num > 0 {
      KeyOutcomesDistinct(files, ki, num - 1);
      var earlier := KeyOutcomes(files, ki, num - 1);
      forall i | 0 <= i < |earlier| && earlier[i].0 == WithDigit(KEYS[ki], num - 1)
        ensures false
      {
        var d := KeyOutcomeAttempted(files, ki, num - 1, i);
        WithDigitInjective(KEYS[ki], d, KEYS[ki], num - 1);
      }
    }
  }

  /** No file is written twice. */
  lemma {:induction false} OutcomesDistinct(files: map<string, seq<Sample>>, ki: nat)
    requires ki <= |KEYS|
    ensures forall i, j :: 0 <= i < j < |Outcomes(files, ki)| ==> Outcomes(files, ki)[i].0 != Outcomes(files, ki)[j].0
  {
    if ki > 0 {
      OutcomesDistinct(files, ki - 1);
      KeyOutcomesDistinct(files, ki - 1, 9);
      var earlier := Outcomes(files, ki - 1);
      var last := KeyOutcomes(files, ki - 1, 9);
      forall i, j | 0 <= i < |earlier| && 0 <= j < |last| && earlier[i].0 == last[j].0
        ensures false
      {
        var a, d := OutcomeAttempted(files, ki - 1, i);
        var d' := KeyOutcomeAttempted(files, ki - 1, 9, j);
        WithDigitInjective(KEYS[a], d, KEYS[ki - 1], d');
        KeysDistinct(a, ki - 1);
      }
      var all := Outcomes(files, ki);
      assert all == earlier + last;
      forall i, j | 0 <= i < j < |all|
        ensures all[i].0 != all[j].0
      {
        if j >= |earlier| && i < |earlier| {
          assert all[j] == last[j - |earlier|];
        } else if i >= |earlier| {
          assert all[i] == last[i - |earlier|] && all[j] == last[j - |earlier|];
        }
      }
    }
  }
}
