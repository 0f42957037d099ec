/**
 * The written piece and its expansion into time slots. Each hand is a list
 * of note values (16 for a sixteenth, 8 for an eighth, ...) and a parallel
 * list of key names, "s" marking a rest. The largest value is the shortest
 * note, and every entry is expanded into as many slots of that length as
 * it lasts: a sounded key is followed by zeros (held), a rest becomes zeros
 * under legato and "s" otherwise.
 */
module Score {
  import opened Rounding

  /** An entry of an expanded hand: a key name (or "s") as text, or 0. */
  datatype Slot = Zero | Text(s: string)

  /** Python's truth value of an entry: 0 and the empty string are false. */
  predicate Truthy(x: Slot)
  {
    x != Zero && x != Text("")
  }

  const TEMPO: real := 120.0
  const TIME_SIGNATURE_BOTTOM: real := 8.0
  /** Milliseconds per beat. */
  const BEAT_DURATION: real := 60.0 / TEMPO * 1000.0

  /**
   * min_val: the largest note value over both hands, starting from 0; with
   * positive entries it is one of them.
   */
  method ShortestValue(values0: seq<real>, values1: seq<real>) returns (minVal: real)
    ensures minVal >= 0.0
    ensures forall k :: 0 <= k < |values0| ==> values0[k] <= minVal
    ensures forall k :: 0 <= k < |values1| ==> values1[k] <= minVal
    ensures minVal == 0.0 || minVal in values0 || minVal in values1
  {
    minVal := 0.0;
    var hands := [values0, values1];
    for h := 0 to 2
      invariant minVal >= 0.0
      invariant forall g, k :: 0 <= g < h && 0 <= k < |hands[g]| ==> hands[g][k] <= minVal
      invariant minVal == 0.0 || (exists g :: 0 <= g < h && minVal in hands[g])
    {
      for k := 0 to |hands[h]|
        invariant minVal >= 0.0
        invariant forall g, k' :: 0 <= g < h && 0 <= k' < |hands[g]| ==> hands[g][k'] <= minVal
        invariant forall k' :: 0 <= k' < k ==> hands[h][k'] <= minVal
        invariant minVal == 0.0 || (exists g :: 0 <= g <= h && minVal in hands[g])
      {
        if hands[h][k] > minVal {
          minVal := hands[h][k];
        }
      }
    }
    assert hands[0] == values0 && hands[1] == values1;
  }

  /** How many times Python's range(n) runs: never when n is not positive. */
  function Times(n: int): (r: nat)
    ensures r as int == n || (n < 0 && r == 0)
  {
    if n < 0 then 0 else n
  }

  function Repeat(x: Slot, n: nat): (r: seq<Slot>)
    ensures |r| == n && forall i :: 0 <= i < n ==> r[i] == x
  {
    seq(n, _ => x)
  }

  /**
   * The slots one entry of value v takes: a key followed by
   * round(minVal / v - 1) zeros (none when v is minVal itself), or for a
   * rest round(minVal / v) zeros under legato and as many "s" otherwise.
   */
  function EntrySlots(v: real, raw: string, minVal: real, articulation: string): seq<Slot>
    requires v != 0.0
  {
    if raw != "s" then
      [Text(raw)] + (if v != minVal then Repeat(Zero, Times(RoundHalfEven(minVal / v - 1.0))) else [])
    else if articulation == "legato" then
      Repeat(Zero, Times(RoundHalfEven(minVal / v)))
    else
      Repeat(Text("s"), Times(RoundHalfEven(minVal / v)))
  }

  /** The expanded hand: the entries' slots one after the other. */
  function Expansion(values: seq<real>, raws: seq<string>, minVal: real, articulation: string): seq<Slot>
    requires |raws| >= |values|
    requires forall i :: 0 <= i < |values| ==> values[i] != 0.0
  {
    if |values| == 0 then []
    else
      var n := |values| - 1;
      Expansion(values[..n], raws, minVal, articulation) + EntrySlots(values[n], raws[n], minVal, articulation)
  }

  /** The loop building NOTES_i from NOTES_VALUE_i and NOTES_RAW_i by appending. */
  method Expand(values: seq<real>, raws: seq<string>, minVal: real, articulation: string) returns (slots: seq<Slot>)
    requires |raws| >= |values|
    requires forall i :: 0 <= i < |values| ==> values[i] != 0.0
    ensures slots == Expansion(values, raws, minVal, articulation)
  {
    slots := [];
    for index := 0 to |values|
      invariant slots == Expansion(values[..index], raws, minVal, articulation)
    {
      slots := AppendEntry(slots, values[index], raws[index], minVal, articulation);
      ExpansionStep(values, raws, minVal, articulation, index);
    }
    assert values[..|values|] == values;
  }

  /** One pass of the outer loop: the slots of one entry appended, by the inner loops. */
  method AppendEntry(before: seq<Slot>, noteVal: real, raw: string, minVal: real, articulation: string) returns (slots: seq<Slot>)
    requires noteVal != 0.0
    ensures slots == before + EntrySlots(noteVal, raw, minVal, articulation)
  {
    slots := before;
    if raw != "s" {
      slots := slots + [Text(raw)];
      if noteVal != minVal {
        var n := Times(RoundHalfEven(minVal / noteVal - 1.0));
        for j := 0 to n
          invariant slots == before + [Text(raw)] + Repeat(Zero, j)
        {
          slots := slots + [Zero];
        }
      }
    } else {
      var fill := if articulation == "legato" then Zero else Text("s");
      var n := Times(RoundHalfEven(minVal / noteVal));
      for j := 0 to n
        invariant slots == before + Repeat(fill, j)
      {
        slots := slots + [fill];
      }
    }
  }

  /** Entry index extends the expansion of the entries before it by its own slots. */
  lemma ExpansionStep(values: seq<real>, raws: seq<string>, minVal: real, articulation: string, index: nat)
    requires |raws| >= |values| && index < |values|
    requires forall i :: 0 <= i < |values| ==> values[i] != 0.0
    ensures Expansion(values[..index + 1], raws, minVal, articulation)
         == Expansion(values[..index], raws, minVal, articulation) + EntrySlots(values[index], raws[index], minVal, articulation)
  {
    assert values[..index + 1][..index] == values[..index];
  }

  /**
   * When the shortest value is k times the entry's value, the entry takes
   * exactly k slots: its key then zeros when it sounds, and for a rest zeros
   * under legato, "s" otherwise.
   */
  lemma EntryWidth(v: real, raw: string, minVal: real, articulation: string, k: nat)
    requires v != 0.0 && k >= 1 && minVal / v == k as real
    ensures |EntrySlots(v, raw, minVal, articulation)| == k
    ensures raw != "s" ==> EntrySlots(v, raw, minVal, articulation)[0] == Text(raw)
    ensures raw != "s" && v == minVal ==> EntrySlots(v, raw, minVal, articulation) == [Text(raw)]
    ensures raw != "s" ==> forall j :: 1 <= j < k ==> EntrySlots(v, raw, minVal, articulation)[j] == Zero
    ensures raw == "s" ==> forall j :: 0 <= j < k ==>
      EntrySlots(v, raw, minVal, articulation)[j] == (if articulation == "legato" then Zero else Text("s"))
  {
    RoundInteger(k);
    RoundInteger(k - 1);
    assert minVal / v - 1.0 == (k - 1) as real;
    if v == minVal {
      assert minVal / v == 1.0;
    }
  }

  function Sum(s: seq<nat>): nat
  {
    if |s| == 0 then 0 else Sum(s[..|s| - 1]) + s[|s| - 1]
  }

  /** With integral ratios, the expanded hand is as long as the ratios add up to. */
  lemma {:induction false} ExpansionLength(values: seq<real>, raws: seq<string>, minVal: real, articulation: string, ratios: seq<nat>)
    requires |raws| >= |values| && |ratios| == |values|
    requires forall i :: 0 <= i < |values| ==> values[i] != 0.0 && ratios[i] >= 1 && minVal / values[i] == ratios[i] as real
    ensures |Expansion(values, raws, minVal, articulation)| == Sum(ratios)
  {
    if |values| != 0 {
      var n := |values| - 1;
      ExpansionLength(values[..n], raws, minVal, articulation, ratios[..n]);
      EntryWidth(values[n], raws[n], minVal, articulation, ratios[n]);
    }
  }

  /** The expansion of a prefix of the entries is a prefix of the expansion. */
  lemma {:induction false} ExpansionPrefix(values: seq<real>, raws: seq<string>, minVal: real, articulation: string, m: nat)
    requires |raws| >= |values| && m <= |values|
    requires forall i :: 0 <= i < |values| ==> values[i] != 0.0
    ensures Expansion(values[..m], raws, minVal, articulation) <= Expansion(values, raws, minVal, articulation)
    decreases |values| - m
  {
    if m < |values| {
      var n := |values| - 1;
      assert values[..n][..m] == values[..m];
      ExpansionPrefix(values[..n], raws, minVal, articulation, m);
      var whole := Expansion(values, raws, minVal, articulation);
      var init := Expansion(values[..n], raws, minVal, articulation);
      assert whole == init + EntrySlots(values[n], raws[n], minVal, articulation);
      assert init <= whole;
    } else {
      assert values[..m] == values;
    }
  }

  /**
   * With integral ratios, a sounded entry i is struck in slot
   * Sum(ratios[..i]): exactly where the durations of the entries before it
   * add up to, so it plays at that many shortest-note durations.
   */
  lemma EntryStartsOnTime(values: seq<real>, raws: seq<string>, minVal: real, articulation: string, ratios: seq<nat>, i: nat)
    requires |raws| >= |values| && |ratios| == |values|
    requires forall j :: 0 <= j < |values| ==> values[j] != 0.0 && ratios[j] >= 1 && minVal / values[j] == ratios[j] as real
    requires i < |values| && raws[i] != "s"
    ensures Sum(ratios[..i]) < |Expansion(values, raws, minVal, articulation)|
    ensures Expansion(values, raws, minVal, articulation)[Sum(ratios[..i])] == Text(raws[i])
  {
    var pre := values[..i + 1];
    assert pre[..i] == values[..i];
    ExpansionLength(values[..i], raws, minVal, articulation, ratios[..i]);
    EntryWidth(values[i], raws[i], minVal, articulation, ratios[i]);
    ExpansionPrefix(values, raws, minVal, articulation, i + 1);
  }

  /** DURATION: the length of the shortest note in milliseconds, rounded. */
  function Duration(minVal: real): (r: int)
    requires minVal != 0.0
    ensures (r as real) - 0.5 <= TIME_SIGNATURE_BOTTOM / minVal * BEAT_DURATION <= (r as real) + 0.5
  {
    RoundHalfEven(TIME_SIGNATURE_BOTTOM / minVal * BEAT_DURATION)
  }
}
