/**
 * The on-screen piano: the 88 keys built from the twelve note names, each
 * with a position number (white keys 1 to 52 from the left, a black key
 * two thirds of the way into the white key before it), and the colour fade
 * a key shows after it is played.
 */
module Keyboard {
  import opened Naming

  datatype Rgb = Rgb(r: int, g: int, b: int)

  const WHITE: Rgb := Rgb(255, 255, 255)
  const BLACK: Rgb := Rgb(0, 0, 0)
  const LIGHT_BLUE: Rgb := Rgb(100, 100, 255)
  const DARK_BLUE: Rgb := Rgb(0, 0, 200)
  /** Colour step of one draw while a key fades back. */
  const FADE: int := 5

  const NOTE_NAMES: seq<string> := ["C", "Db", "D", "Eb", "E", "F", "Gb", "G", "Ab", "A", "Bb", "B"]

  /** One-letter names are the natural notes (white keys), two-letter ones the flats (black keys). */
  predicate Natural(i: nat)
    requires i < 12
  {
    |NOTE_NAMES[i]| == 1
  }

  /** base_num once name i has been looked at: how many of NOTE_NAMES[..i+1] are natural. */
  function BaseNum(i: nat): int
    requires i < 12
  {
    (if i == 0 then 0 else BaseNum(i - 1)) + (if Natural(i) then 1 else 0)
  }

  /** The octaves name i is built in: 0 only for A, Bb and B, 1 to 7 for all, 8 only for C. */
  function Octaves(i: nat): (r: seq<nat>)
    requires i < 12
    ensures forall t :: 0 <= t < |r| ==> r[t] <= 8
  {
    if i == 0 then [1, 2, 3, 4, 5, 6, 7, 8]
    else if 9 <= i then [0, 1, 2, 3, 4, 5, 6, 7]
    else [1, 2, 3, 4, 5, 6, 7]
  }

  /** The position number the construction gives name i in octave o. */
  function Number(i: nat, o: nat): real
    requires i < 12
  {
    if o == 8 then 52.0
    else
      (if o == 0 then BaseNum(i) - 5 else 2 + BaseNum(i) + 7 * (o - 1)) as real
      + (if Natural(i) then 0.0 else 2.0 / 3.0)
  }

  /** A key as created: its full name ("Ab5"), its note name, its starting colour and its position number. */
  datatype KeySpec = KeySpec(key: string, keyType: string, initialColor: Rgb, number: real)

  function KeyOf(i: nat, o: nat): KeySpec
    requires i < 12 && o < 10
  {
    KeySpec(WithDigit(NOTE_NAMES[i], o), NOTE_NAMES[i], if Natural(i) then WHITE else BLACK, Number(i, o))
  }

  /** The keys of name i, in octave order. */
  function KeysOf(i: nat): (r: seq<KeySpec>)
    requires i < 12
    ensures |r| == |Octaves(i)|
  {
    seq(|Octaves(i)|, t requires 0 <= t < |Octaves(i)| => KeyOf(i, Octaves(i)[t]))
  }

  /** The keys of the first n names, name after name. */
  function Keys(n: nat): seq<KeySpec>
    requires n <= 12
  {
    if n == 0 then [] else Keys(n - 1) + KeysOf(n - 1)
  }

  /** The whole keyboard list, NOTES. */
  function KeyboardSpec(): seq<KeySpec>
  {
    Keys(|NOTE_NAMES|)
  }

  class Note {
    const key: string
    const keyType: string
    const initialColor: Rgb
    /** The colour drawn; it fades back to initialColor after the key is played. */
    var color: Rgb
    const number: real

    constructor (key: string, keyType: string, initialColor: Rgb, number: real)
      ensures Spec() == KeySpec(key, keyType, initialColor, number) && color == initialColor
    {
      this.key := key;
      this.keyType := keyType;
      this.initialColor := initialColor;
      this.color := initialColor;
      this.number := number;
    }

    /** The fixed attributes of this key. */
    function Spec(): KeySpec
    {
      KeySpec(key, keyType, initialColor, number)
    }

    /** draw_note's colour update, one fade step. */
    method DrawNote()
      modifies this
      ensures color == Faded(old(color), initialColor, |keyType| == 1)
    {
      var fade1, fade2 := 0, 0;
      if |keyType| == 1 {
        fade1 := FADE;
      } else {
        fade2 := FADE;
      }
      if color != initialColor {
        color := Rgb(color.r + fade1, color.g + fade1, color.b - fade2);
      }
    }
  }

  /**
   * One fade step: nothing once the colour is back to the initial one,
   * otherwise a natural key gains FADE on red and green and a black key
   * loses FADE on blue.
   */
  function Faded(c: Rgb, initial: Rgb, natural: bool): Rgb
  {
    if c == initial then c
    else if natural then Rgb(c.r + FADE, c.g + FADE, c.b)
    else Rgb(c.r, c.g, c.b - FADE)
  }

  /** The colour after n draws. */
  function FadedTimes(c: Rgb, initial: Rgb, natural: bool, n: nat): Rgb
    decreases n
  {
    if n == 0 then c else FadedTimes(Faded(c, initial, natural), initial, natural, n - 1)
  }

  /** A key at its initial colour keeps it however often it is drawn. */
  lemma {:induction false} RestingKeyStays(initial: Rgb, natural: bool, n: nat)
    ensures FadedTimes(initial, initial, natural, n) == initial
  {
    if n > 0 {
      RestingKeyStays(initial, natural, n - 1);
    }
  }

  /**
   * A white key k fade steps below white on red and green is white again
   * after exactly k draws, and not before.
   */
  lemma {:induction false} WhiteFadesBack(k: nat, j: nat)
    ensures FadedTimes(Rgb(255 - FADE * k, 255 - FADE * k, 255), WHITE, true, k) == WHITE
    ensures j < k ==> FadedTimes(Rgb(255 - FADE * k, 255 - FADE * k, 255), WHITE, true, j) != WHITE
  {
    if k > 0 {
      var c := Rgb(255 - FADE * k, 255 - FADE * k, 255);
      assert Faded(c, WHITE, true) == Rgb(255 - FADE * (k - 1), 255 - FADE * (k - 1), 255);
      if j > 0 {
        WhiteFadesBack(k - 1, j - 1);
      } else {
        WhiteFadesBack(k - 1, 0);
      }
    }
  }

  /** A black key k fade steps above black on blue is black again after exactly k draws, and not before. */
  lemma {:induction false} BlackFadesBack(k: nat, j: nat)
    ensures FadedTimes(Rgb(0, 0, FADE * k), BLACK, false, k) == BLACK
    ensures j < k ==> FadedTimes(Rgb(0, 0, FADE * k), BLACK, false, j) != BLACK
  {
    if k > 0 {
      var c := Rgb(0, 0, FADE * k);
      assert Faded(c, BLACK, false) == Rgb(0, 0, FADE * (k - 1));
      if j > 0 {
        BlackFadesBack(k - 1, j - 1);
      } else {
        BlackFadesBack(k - 1, 0);
      }
    }
  }

  /** A played white key (light blue) is white again after 31 draws, and not before. */
  lemma PlayedWhiteKeyFade(j: nat)
    ensures FadedTimes(LIGHT_BLUE, WHITE, true, 31) == WHITE
    ensures j < 31 ==> FadedTimes(LIGHT_BLUE, WHITE, true, j) != WHITE
  {
    assert LIGHT_BLUE == Rgb(255 - FADE * 31, 255 - FADE * 31, 255);
    WhiteFadesBack(31, j);
  }

  /** A played black key (dark blue) is black again after 40 draws, and not before. */
  lemma PlayedBlackKeyFade(j: nat)
    ensures FadedTimes(DARK_BLUE, BLACK, false, 40) == BLACK
    ensures j < 40 ==> FadedTimes(DARK_BLUE, BLACK, false, j) != BLACK
  {
    assert DARK_BLUE == Rgb(0, 0, FADE * 40);
    BlackFadesBack(40, j);
  }

  /** The key objects of the first specs.Length entries, pairwise distinct, each at its starting colour. */
  ghost predicate Made(notes: seq<Note>, specs: seq<KeySpec>)
    reads set k | 0 <= k < |notes| :: notes[k]
  {
    && |notes| == |specs|
    && (forall k :: 0 <= k < |notes| ==> notes[k].Spec() == specs[k] && notes[k].color == specs[k].initialColor)
    && (forall j, k :: 0 <= j < k < |notes| ==> notes[j] != notes[k])
  }

  /** The keys of name i in octaves 1 to 7. */
  function MiddleKeys(i: nat): (r: seq<KeySpec>)
    requires i < 12
    ensures |r| == 7
    ensures forall t :: 0 <= t < 7 ==>
      && r[t].key == WithDigit(NOTE_NAMES[i], t + 1) && r[t].keyType == NOTE_NAMES[i]
      && r[t].number == (2 + BaseNum(i) + 7 * t) as real + (if Natural(i) then 0.0 else 2.0 / 3.0)
  {
    var r := seq(7, t requires 0 <= t < 7 => KeyOf(i, t + 1));
    assert forall t :: 0 <= t < 7 ==>
      r[t].number == (2 + BaseNum(i) + 7 * t) as real + (if Natural(i) then 0.0 else 2.0 / 3.0) by {
      forall t | 0 <= t < 7
        ensures r[t].number == (2 + BaseNum(i) + 7 * t) as real + (if Natural(i) then 0.0 else 2.0 / 3.0)
      {
        NumberRule(i, t + 1);
      }
    }
    r
  }

  /** The inner loop: name i's keys in octaves 1 to 7, numbered 2 + base_num + 7 * (octave - 1). */
  method BuildMiddleKeys(i: nat, baseNum: int) returns (notes: seq<Note>)
    requires i < 12 && baseNum == BaseNum(i)
    ensures Made(notes, MiddleKeys(i))
    ensures forall k :: 0 <= k < |notes| ==> fresh(notes[k])
  {
    var note := NOTE_NAMES[i];
    var color := if |note| == 1 then WHITE else BLACK;
    notes := [];
    for j := 1 to 8
      invariant Made(notes, MiddleKeys(i)[..j - 1])
      invariant forall k :: 0 <= k < |notes| ==> fresh(notes[k])
    {
      var noteNum;
      if |note| == 1 {
        noteNum := (2 + baseNum + 7 * (j - 1)) as real;
      } else {
        noteNum := (2 + baseNum + 7 * (j - 1)) as real + 2.0 / 3.0;
      }
      var n := new Note(WithDigit(note, j), note, color, noteNum);
      assert MiddleKeys(i)[..j] == MiddleKeys(i)[..j - 1] + [KeyOf(i, j)];
      notes := notes + [n];
    }
    assert MiddleKeys(i)[..7] == MiddleKeys(i);
  }

  /** Name i's keys: the octave-0 one (A, Bb, B only), the middle seven, and C8. */
  lemma KeysOfParts(i: nat)
    requires i < 12
    ensures KeysOf(i) == (if 9 <= i then [KeyOf(i, 0)] else []) + MiddleKeys(i) + (if i == 0 then [KeyOf(i, 8)] else [])
  {
    var lo := if 9 <= i then 1 else 0;
    var parts := (if 9 <= i then [KeyOf(i, 0)] else []) + MiddleKeys(i) + (if i == 0 then [KeyOf(i, 8)] else []);
    forall t | 0 <= t < |parts|
      ensures t < |KeysOf(i)| && parts[t] == KeysOf(i)[t]
    {
      OctaveIndex(i, t);
      if lo <= t < lo + 7 {
        assert parts[t] == MiddleKeys(i)[t - lo];
      }
    }
  }

  /** Two lists of distinct key objects, with no object in both, join into one. */
  lemma MadeAppend(a: seq<Note>, sa: seq<KeySpec>, b: seq<Note>, sb: seq<KeySpec>)
    requires Made(a, sa) && Made(b, sb)
    requires forall j, k :: 0 <= j < |a| && 0 <= k < |b| ==> a[j] != b[k]
    ensures Made(a + b, sa + sb)
  {
  }

  /** One iteration of the outer loop, after base_num is updated: all the keys of name i. */
  method BuildNameKeys(i: nat, baseNum: int) returns (notes: seq<Note>)
    requires i < 12 && baseNum == BaseNum(i)
    ensures Made(notes, KeysOf(i))
    ensures forall k :: 0 <= k < |notes| ==> fresh(notes[k])
  {
    var note := NOTE_NAMES[i];
    var color := if |note| == 1 then WHITE else BLACK;
    var low: seq<Note> := [];
    if 9 <= i <= 11 {
      var noteNum := (baseNum - 5) as real;
      if |note| == 2 {
        noteNum := noteNum + 2.0 / 3.0;
      }
      var n := new Note(WithDigit(note, 0), note, color, noteNum);
      low := [n];
    }
    var middle := BuildMiddleKeys(i, baseNum);
    var high: seq<Note> := [];
    if i == 0 {
      var n := new Note(WithDigit(note, 8), note, color, 52.0);
      high := [n];
    }
    var lowKeys := if 9 <= i then [KeyOf(i, 0)] else [];
    var highKeys := if i == 0 then [KeyOf(i, 8)] else [];
    MadeAppend(low, lowKeys, middle, MiddleKeys(i));
    MadeAppend(low + middle, lowKeys + MiddleKeys(i), high, highKeys);
    notes := low + middle + high;
    KeysOfParts(i);
  }

  /**
   * The module-level loop building NOTES: for each name, base_num counts it
   * when natural, then its octave-0 key (A, Bb, B only), its keys in
   * octaves 1 to 7 and C8 are appended.
   */
  method BuildKeyboard() returns (notes: seq<Note>)
    ensures Made(notes, KeyboardSpec())
    ensures forall k :: 0 <= k < |notes| ==> fresh(notes[k])
  {
    notes := [];
    var baseNum := 0;
    for i := 0 to 12
      invariant baseNum == (if i == 0 then 0 else BaseNum(i - 1))
      invariant Made(notes, Keys(i))
      invariant forall k :: 0 <= k < |notes| ==> fresh(notes[k])
    {
      if |NOTE_NAMES[i]| == 1 {
        baseNum := baseNum + 1;
      }
      var added := BuildNameKeys(i, baseNum);
      MadeAppend(notes, Keys(i), added, KeysOf(i));
      notes := notes + added;
      assert Keys(i + 1) == Keys(i) + KeysOf(i);
    }
  }

  // ---------------------------------------------------------------------
  // The layout the construction produces

  /** The values base_num takes: one more at each natural name. */
  lemma {:induction false} BaseNumValues(i: nat)
    requires i < 12
    ensures BaseNum(i) == [1, 1, 2, 2, 3, 4, 4, 5, 5, 6, 6, 7][i]
  {
    if i > 0 {
      BaseNumValues(i - 1);
    }
  }

  /**
   * The three numbering formulas of the construction agree with one rule:
   * the key of name i in octave o is at base_num + 7 * o - 5, plus two
   * thirds for a black key.
   */
  lemma NumberRule(i: nat, o: nat)
    requires i < 12 && o in Octaves(i)
    ensures Number(i, o) == (BaseNum(i) + 7 * o - 5) as real + (if Natural(i) then 0.0 else 2.0 / 3.0)
  {
    if o == 8 {
      BaseNumValues(0);
    }
  }

  /** Where the keys of name i start in the list. */
  function Offset(i: nat): nat
    requires i <= 12
  {
    7 * i + (if i > 0 then 1 else 0) + (if i > 9 then i - 9 else 0)
  }

  lemma {:induction false} KeysLength(n: nat)
    requires n <= 12
    ensures |Keys(n)| == Offset(n)
  {
    if n > 0 {
      KeysLength(n - 1);
    }
  }

  lemma {:induction false} KeysPrefix(m: nat, n: nat)
    requires m <= n <= 12
    ensures Keys(m) <= Keys(n)
  {
    if m < n {
      KeysPrefix(m, n - 1);
    }
  }

  /** The keyboard has 88 keys. */
  lemma KeyboardSize()
    ensures |KeyboardSpec()| == 88
  {
    KeysLength(12);
  }

  /** The t-th key of name i sits at Offset(i) + t. */
  lemma KeyAtOffset(i: nat, t: nat)
    requires i < 12 && t < |Octaves(i)|
    ensures Offset(i) + t < |KeyboardSpec()|
    ensures KeyboardSpec()[Offset(i) + t] == KeyOf(i, Octaves(i)[t])
  {
    KeysLength(i);
    KeysPrefix(i + 1, 12);
    assert Keys(i + 1) == Keys(i) + KeysOf(i);
    assert Keys(i + 1)[Offset(i) + t] == KeysOf(i)[t];
  }

  function NameFrom(k: nat, i: nat): (r: nat)
    requires i < 12 && Offset(i) <= k < 88
    ensures i <= r < 12 && Offset(r) <= k < Offset(r + 1)
    decreases 12 - i
  {
    if k < Offset(i + 1) then i else NameFrom(k, i + 1)
  }

  /** The name of the key at position k. */
  function NameAt(k: nat): (i: nat)
    requires k < 88
    ensures i < 12 && Offset(i) <= k < Offset(i + 1)
  {
    NameFrom(k, 0)
  }

  /** The octave of the key at position k. */
  function OctaveAt(k: nat): (o: nat)
    requires k < 88
    ensures o in Octaves(NameAt(k)) && o <= 8
  {
    Octaves(NameAt(k))[k - Offset(NameAt(k))]
  }

  /** The keys of name i fill the positions from Offset(i) up to Offset(i + 1). */
  lemma OffsetStep(i: nat)
    requires i < 12
    ensures Offset(i + 1) == Offset(i) + |Octaves(i)|
  {
  }

  /** The position Offset(i) + t belongs to name i, in its t-th octave. */
  lemma PlaceOf(i: nat, t: nat)
    requires i < 12 && t < |Octaves(i)|
    ensures Offset(i) + t < 88
    ensures NameAt(Offset(i) + t) == i && OctaveAt(Offset(i) + t) == Octaves(i)[t]
  {
    OffsetStep(i);
  }

  /** Every key of the list is the key of its name and octave. */
  lemma KeyAt(k: nat)
    requires k < 88
    ensures k < |KeyboardSpec()| && KeyboardSpec()[k] == KeyOf(NameAt(k), OctaveAt(k))
  {
    var i := NameAt(k);
    OffsetStep(i);
    KeyAtOffset(i, k - Offset(i));
  }

  /** No octave is listed twice for a name, so a name and octave fix the position. */
  lemma SamePlace(k1: nat, k2: nat)
    requires k1 < 88 && k2 < 88 && NameAt(k1) == NameAt(k2) && OctaveAt(k1) == OctaveAt(k2)
    ensures k1 == k2
  {
    var i := NameAt(k1);
    var t1, t2 := k1 - Offset(i), k2 - Offset(i);
    assert OctaveAt(k1) == Octaves(i)[t1] && OctaveAt(k2) == Octaves(i)[t2];
    OctaveIndex(i, t1);
    OctaveIndex(i, t2);
  }

  /** The octaves of name i are one run: from 0 (A, Bb, B) or 1, up to 8 (C) or 7. */
  lemma OctaveRange(i: nat, o: nat)
    requires i < 12
    ensures o in Octaves(i) <==> (if 9 <= i then 0 else 1) <= o <= (if i == 0 then 8 else 7)
  {
    if (if 9 <= i then 0 else 1) <= o <= (if i == 0 then 8 else 7) {
      OctaveIndex(i, o - (if 9 <= i then 0 else 1));
    }
  }

  /** Name i's octaves are consecutive: 0 onwards for A, Bb and B, 1 onwards for the others. */
  lemma OctaveIndex(i: nat, t: nat)
    requires i < 12 && t < |Octaves(i)|
    ensures Octaves(i)[t] == t + (if 9 <= i then 0 else 1)
  {
  }

  /** The twelve note names are different. */
  lemma NoteNamesDistinct(i1: nat, i2: nat)
    requires i1 < 12 && i2 < 12 && NOTE_NAMES[i1] == NOTE_NAMES[i2]
    ensures i1 == i2
  {
    var names := NOTE_NAMES;
    assert |names[i1]| == |names[i2]| && names[i1][0] == names[i2][0];
  }

  /** No two keys have the same full name. */
  lemma KeyNamesDistinct(k1: nat, k2: nat)
    requires k1 < 88 && k2 < 88 && k1 != k2
    ensures k1 < |KeyboardSpec()| && k2 < |KeyboardSpec()|
    ensures KeyboardSpec()[k1].key != KeyboardSpec()[k2].key
  {
    KeyAt(k1);
    KeyAt(k2);
    var i1, o1, i2, o2 := NameAt(k1), OctaveAt(k1), NameAt(k2), OctaveAt(k2);
    if WithDigit(NOTE_NAMES[i1], o1) == WithDigit(NOTE_NAMES[i2], o2) {
      WithDigitInjective(NOTE_NAMES[i1], o1, NOTE_NAMES[i2], o2);
      NoteNamesDistinct(i1, i2);
      SamePlace(k1, k2);
    }
  }

  /** A white key's number is a whole number from 1 to 52. */
  lemma WhiteKeyNumber(k: nat)
    requires k < 88
    ensures k < |KeyboardSpec()|
    ensures KeyboardSpec()[k].initialColor == WHITE ==>
      && 1.0 <= KeyboardSpec()[k].number <= 52.0
      && KeyboardSpec()[k].number == KeyboardSpec()[k].number.Floor as real
  {
    KeyAt(k);
    var i, o := NameAt(k), OctaveAt(k);
    if Natural(i) {
      NumberRule(i, o);
      NaturalBaseNum(i);
      OctaveRange(i, o);
      var n := BaseNum(i) + 7 * o - 5;
      assert 1 <= n <= 52;
      assert KeyboardSpec()[k].number == n as real;
    }
  }

  /** A natural name's base_num is its rank among the natural names, 1 to 7, with C at 1, A at 6 and B at 7. */
  lemma NaturalBaseNum(i: nat)
    requires i < 12 && Natural(i)
    ensures 1 <= BaseNum(i) <= 7
    ensures i == 0 <==> BaseNum(i) == 1
    ensures 9 <= i <==> BaseNum(i) >= 6
  {
    BaseNumValues(i);
  }

  /** Two natural names with the same base_num are the same name. */
  lemma BaseNumDistinct(i1: nat, i2: nat)
    requires i1 < 12 && i2 < 12 && Natural(i1) && Natural(i2) && BaseNum(i1) == BaseNum(i2)
    ensures i1 == i2
  {
    BaseNumValues(i1);
    BaseNumValues(i2);
  }

  /** Two white keys with the same number have the same name and octave. */
  lemma WhiteNumberDetermines(i1: nat, o1: nat, i2: nat, o2: nat)
    requires i1 < 12 && i2 < 12 && o1 in Octaves(i1) && o2 in Octaves(i2)
    requires Natural(i1) && Natural(i2) && Number(i1, o1) == Number(i2, o2)
    ensures i1 == i2 && o1 == o2
  {
    NumberRule(i1, o1);
    NumberRule(i2, o2);
    NaturalBaseNum(i1);
    NaturalBaseNum(i2);
    assert BaseNum(i1) + 7 * o1 == BaseNum(i2) + 7 * o2;
    BaseNumDistinct(i1, i2);
  }

  /** No two white keys share a number. */
  lemma WhiteNumbersDistinct(k1: nat, k2: nat)
    requires k1 < 88 && k2 < 88 && k1 != k2
    ensures k1 < |KeyboardSpec()| && k2 < |KeyboardSpec()|
    ensures KeyboardSpec()[k1].initialColor == WHITE && KeyboardSpec()[k2].initialColor == WHITE ==>
      KeyboardSpec()[k1].number != KeyboardSpec()[k2].number
  {
    KeyAt(k1);
    KeyAt(k2);
    var i1, o1, i2, o2 := NameAt(k1), OctaveAt(k1), NameAt(k2), OctaveAt(k2);
    if Natural(i1) && Natural(i2) && Number(i1, o1) == Number(i2, o2) {
      WhiteNumberDetermines(i1, o1, i2, o2);
      SamePlace(k1, k2);
    }
  }

  /** Every number from 1 to 52 is some white key's. */
  lemma WhiteNumbersCovered(n: int) returns (k: nat)
    requires 1 <= n <= 52
    ensures k < 88 && k < |KeyboardSpec()|
    ensures KeyboardSpec()[k].initialColor == WHITE && KeyboardSpec()[k].number == n as real
  {
    var i, o := WhiteNameOctave(n);
    var t := o - (if 9 <= i then 0 else 1);
    OctaveIndex(i, t);
    KeyAtOffset(i, t);
    k := Offset(i) + t;
    KeyboardSize();
    var key := KeyOf(i, o);
    assert key.initialColor == WHITE && key.number == n as real;
    assert KeyboardSpec()[k] == key;
  }

  /** Every number from 1 to 52 is the number of some natural name in one of its octaves. */
  lemma WhiteNameOctave(n: int) returns (i: nat, o: nat)
    requires 1 <= n <= 52
    ensures i < 12 && Natural(i) && (if 9 <= i then 0 else 1) <= o <= (if i == 0 then 8 else 7)
    ensures o in Octaves(i) && Number(i, o) == n as real
  {
    o := (n + 4) / 7;
    var r := (n + 4) % 7;
    i := NaturalOfRank(r);
    OctaveRange(i, o);
    NumberRule(i, o);
  }

  /** The natural name whose base_num is r + 1. */
  lemma NaturalOfRank(r: int) returns (i: nat)
    requires 0 <= r < 7
    ensures i < 12 && Natural(i) && BaseNum(i) == r + 1
    ensures i == 0 <==> r == 0
    ensures 9 <= i <==> r >= 5
  {
    i := [0, 2, 4, 5, 7, 9, 11][r];
    BaseNumValues(i);
  }

  /** A flat comes right after a natural name, in the same octaves, two thirds further on. */
  lemma FlatAfterNatural(i: nat, o: nat)
    requires i < 12 && !Natural(i) && o in Octaves(i)
    ensures i > 0 && Natural(i - 1) && o in Octaves(i - 1)
    ensures Number(i, o) == Number(i - 1, o) + 2.0 / 3.0
  {
    BaseNumValues(i);
    BaseNumValues(i - 1);
    NumberRule(i, o);
    NumberRule(i - 1, o);
  }

  /**
   * A black key's number is two thirds past the white key of the note
   * name before it in the same octave, which is also on the keyboard.
   */
  lemma BlackKeyAfterWhite(k: nat) returns (w: nat)
    requires k < 88 && k < |KeyboardSpec()| && KeyboardSpec()[k].initialColor == BLACK
    ensures w < |KeyboardSpec()| && KeyboardSpec()[w].initialColor == WHITE
    ensures NameAt(k) > 0 && KeyboardSpec()[w].keyType == NOTE_NAMES[NameAt(k) - 1]
    ensures w < 88 && OctaveAt(w) == OctaveAt(k)
    ensures KeyboardSpec()[k].number == KeyboardSpec()[w].number + 2.0 / 3.0
  {
    KeyAt(k);
    var i, o := NameAt(k), OctaveAt(k);
    FlatAfterNatural(i, o);
    var t :| 0 <= t < |Octaves(i - 1)| && Octaves(i - 1)[t] == o;
    KeyAtOffset(i - 1, t);
    w := Offset(i - 1) + t;
    KeyboardSize();
    PlaceOf(i - 1, t);
  }

  /** Octave 0 holds only A, Bb and B, and octave 8 only C. */
  lemma OctaveEdges(k: nat)
    requires k < 88
    ensures k < |KeyboardSpec()| && KeyboardSpec()[k].key == WithDigit(KeyboardSpec()[k].keyType, OctaveAt(k))
    ensures OctaveAt(k) == 0 ==> KeyboardSpec()[k].keyType in {"A", "Bb", "B"}
    ensures OctaveAt(k) == 8 ==> KeyboardSpec()[k].keyType == "C"
  {
    KeyAt(k);
    OctaveRange(NameAt(k), OctaveAt(k));
  }
}
