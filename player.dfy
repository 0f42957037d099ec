/**
 * Playing the expanded score: each tick, every due entry of a hand whose
 * key has not sounded yet is struck on one of the hand's two channels and
 * lights up its key on the keyboard; keys then fade back as they are
 * drawn, and a click on the top-right close button ends the program.
 */
module Player {
  import opened Score
  import opened Keyboard

  /** Milliseconds before the first entry sounds. */
  const DELAY: int := 1000
  /** Fade-out time of a staccato release, in milliseconds. */
  const NOTE_FADE: int := 100
  /** Size of the close button in the top-right corner. */
  const CLOSE_WIDTH: int := 50
  const CLOSE_HEIGHT: int := 30

  /** A request to the mixer. */
  datatype Sound = FadeOut(channel: int, ms: int) | Stop(channel: int) | Play(channel: int, key: string)

  /** Entry ind of a hand is due: truthy, and its start time ind * duration + DELAY reached. */
  predicate Due(slots: seq<Slot>, ind: nat, elapsed: int, duration: int)
    requires ind < |slots|
  {
    Truthy(slots[ind]) && elapsed >= ind * duration + DELAY
  }

  /** play_notes strikes entry ind: due, a key rather than "s", and not struck before. */
  predicate Strikes(slots: seq<Slot>, played: seq<int>, ind: nat, elapsed: int, duration: int)
    requires ind < |slots|
  {
    Due(slots, ind, elapsed, duration) && slots[ind] != Text("s") && ind !in played
  }

  /** The entries among the first n that a call strikes, in order. */
  function Struck(slots: seq<Slot>, played: seq<int>, elapsed: int, duration: int, n: nat): seq<int>
    requires n <= |slots|
  {
    if n == 0 then []
    else
      var earlier := Struck(slots, played, elapsed, duration, n - 1);
      if Strikes(slots, played, n - 1, elapsed, duration) then earlier + [n - 1] else earlier
  }

  /** The channel an entry of a hand plays on: the hand's two channels alternate by index. */
  function Channel(ind: nat, hand: nat): int
  {
    ind % 2 + 2 * hand
  }

  /** The mixer requests of one call for the first n entries, in order. */
  function Requests(slots: seq<Slot>, played: seq<int>, hand: nat, elapsed: int, duration: int,
                    articulation: string, n: nat): seq<Sound>
    requires n <= |slots|
  {
    if n == 0 then []
    else
      var ind := n - 1;
      Requests(slots, played, hand, elapsed, duration, articulation, ind)
        + (if Due(slots, ind, elapsed, duration) && articulation == "staccato" && slots[ind] != Zero
           then [FadeOut(2 * hand, NOTE_FADE), FadeOut(2 * hand + 1, NOTE_FADE)] else [])
        + (if Strikes(slots, played, ind, elapsed, duration)
           then [Stop(Channel(ind, hand)), Play(Channel(ind, hand), slots[ind].s)] else [])
  }

  /** The colour a key is set to when struck: light blue for white keys, dark blue for black. */
  function LitColor(keyType: string): Rgb
  {
    if |keyType| == 1 then LIGHT_BLUE else DARK_BLUE
  }

  /** The key names struck by one call. */
  function StruckKeys(slots: seq<Slot>, played: seq<int>, elapsed: int, duration: int): set<string>
  {
    set ind | 0 <= ind < |slots| && Strikes(slots, played, ind, elapsed, duration) :: slots[ind].s
  }

  /** The key objects, no two with the same full name. */
  predicate DistinctKeys(notes: seq<Note>)
  {
    forall j, k :: 0 <= j < k < |notes| ==> notes[j].key != notes[k].key
  }

  /** The keyboard BuildKeyboard makes has distinct key names, as Highlight, PlayNotes and Piano need. */
  lemma BuiltKeysDistinct(notes: seq<Note>)
    requires Made(notes, KeyboardSpec())
    ensures DistinctKeys(notes)
  {
    KeyboardSize();
    forall j, k | 0 <= j < k < |notes|
      ensures notes[j].key != notes[k].key
    {
      KeyNamesDistinct(j, k);
      assert notes[j].Spec() == KeyboardSpec()[j] && notes[k].Spec() == KeyboardSpec()[k];
    }
  }

  function NoteSet(notes: seq<Note>): set<Note>
  {
    set n | n in notes
  }

  /** Light up the first key object named key, if any. */
  method Highlight(notes: seq<Note>, key: string)
    requires DistinctKeys(notes)
    modifies NoteSet(notes)
    ensures forall k :: 0 <= k < |notes| ==>
      notes[k].color == (if notes[k].key == key then LitColor(notes[k].keyType) else old(notes[k].color))
  {
    for k := 0 to |notes|
      invariant forall j :: 0 <= j < |notes| ==> notes[j].color == old(notes[j].color)
      invariant forall j :: 0 <= j < k ==> notes[j].key != key
    {
      if key == notes[k].key {
        if |notes[k].keyType| == 1 {
          notes[k].color := LIGHT_BLUE;
        } else {
          notes[k].color := DARK_BLUE;
        }
        return;
      }
    }
  }

  /**
   * play_notes for one hand: walks the expanded hand and, for each due
   * entry, releases the hand's channels under staccato and, when the entry
   * is a key not played before, lights its key, plays it on its channel and
   * records its index.
   */
  method PlayNotes(slots: seq<Slot>, played: seq<int>, hand: nat, elapsed: int, duration: int,
                   articulation: string, notes: seq<Note>)
    returns (played': seq<int>, requests: seq<Sound>)
    requires DistinctKeys(notes)
    modifies NoteSet(notes)
    ensures played' == played + Struck(slots, played, elapsed, duration, |slots|)
    ensures requests == Requests(slots, played, hand, elapsed, duration, articulation, |slots|)
    ensures forall k :: 0 <= k < |notes| ==>
      notes[k].color == (if notes[k].key in StruckKeys(slots, played, elapsed, duration)
                         then LitColor(notes[k].keyType) else old(notes[k].color))
  {
    played' := played;
    requests := [];
    for ind := 0 to |slots|
      invariant played' == played + Struck(slots, played, elapsed, duration, ind)
      invariant forall j :: j in played' && j !in played ==> j < ind
      invariant requests == Requests(slots, played, hand, elapsed, duration, articulation, ind)
      invariant forall k :: 0 <= k < |notes| ==>
        notes[k].color == (if exists j :: 0 <= j < ind && Strikes(slots, played, j, elapsed, duration) && slots[j].s == notes[k].key
                           then LitColor(notes[k].keyType) else old(notes[k].color))
    {
      var keySound := slots[ind];
      if Truthy(keySound) && elapsed >= ind * duration + DELAY {
        if articulation == "staccato" && keySound != Zero {
          requests := requests + [FadeOut(2 * hand, NOTE_FADE), FadeOut(2 * hand + 1, NOTE_FADE)];
        }
        if ind !in played' && keySound != Text("s") {
          Highlight(notes, keySound.s);
          var channel := ind % 2 + 2 * hand;
          requests := requests + [Stop(channel), Play(channel, keySound.s)];
          played' := played' + [ind];
        }
      }
    }
    forall k | 0 <= k < |notes|
      ensures notes[k].key in StruckKeys(slots, played, elapsed, duration) <==>
        exists j :: 0 <= j < |slots| && Strikes(slots, played, j, elapsed, duration) && slots[j].s == notes[k].key
    {
    }
  }

  predicate NoDuplicates(s: seq<int>)
  {
    forall j, k :: 0 <= j < k < |s| ==> s[j] != s[k]
  }

  /**
   * The entries struck among the first n are exactly those that qualify,
   * in increasing order.
   */
  lemma {:induction false} StruckExactly(slots: seq<Slot>, played: seq<int>, elapsed: int, duration: int, n: nat)
    requires n <= |slots|
    ensures forall j :: j in Struck(slots, played, elapsed, duration, n) <==>
      0 <= j < n && Strikes(slots, played, j, elapsed, duration)
    ensures forall a, b :: 0 <= a < b < |Struck(slots, played, elapsed, duration, n)| ==>
      Struck(slots, played, elapsed, duration, n)[a] < Struck(slots, played, elapsed, duration, n)[b]
  {
    if n > 0 {
      StruckExactly(slots, played, elapsed, duration, n - 1);
      var earlier := Struck(slots, played, elapsed, duration, n - 1);
      if Strikes(slots, played, n - 1, elapsed, duration) {
        assert Struck(slots, played, elapsed, duration, n) == earlier + [n - 1];
        assert forall a :: 0 <= a < |earlier| ==> earlier[a] in earlier;
      }
    }
  }

  /** The played list only grows, and never records an index twice. */
  lemma PlayedStaysDistinct(slots: seq<Slot>, played: seq<int>, elapsed: int, duration: int)
    requires NoDuplicates(played)
    ensures played <= played + Struck(slots, played, elapsed, duration, |slots|)
    ensures NoDuplicates(played + Struck(slots, played, elapsed, duration, |slots|))
  {
    var struck := Struck(slots, played, elapsed, duration, |slots|);
    StruckExactly(slots, played, elapsed, duration, |slots|);
    var all := played + struck;
    forall j, k | 0 <= j < k < |all|
      ensures all[j] != all[k]
    {
      if k >= |played| && j < |played| {
        assert all[k] == struck[k - |played|] && all[k] in struck;
        assert all[j] in played;
      } else if j >= |played| {
        assert all[j] == struck[j - |played|] && all[k] == struck[k - |played|];
      }
    }
  }

  /** Every due key entry is on the played list after the call: struck now or before. */
  lemma DueKeyIsPlayed(slots: seq<Slot>, played: seq<int>, elapsed: int, duration: int, ind: nat)
    requires ind < |slots| && Due(slots, ind, elapsed, duration) && slots[ind] != Text("s")
    ensures ind in played + Struck(slots, played, elapsed, duration, |slots|)
  {
    StruckExactly(slots, played, elapsed, duration, |slots|);
  }

  /**
   * Every key played by a call is a struck entry's key, played on that
   * entry's channel, one of the hand's two.
   */
  lemma {:induction false} PlaysOnHandChannels(slots: seq<Slot>, played: seq<int>, hand: nat, elapsed: int,
                                               duration: int, articulation: string, n: nat, r: Sound)
    requires n <= |slots| && r in Requests(slots, played, hand, elapsed, duration, articulation, n) && r.Play?
    ensures exists j ::
      && 0 <= j < n && Strikes(slots, played, j, elapsed, duration)
      && r == Play(Channel(j, hand), slots[j].s)
    ensures r.channel == 2 * hand || r.channel == 2 * hand + 1
  {
    var ind := n - 1;
    if r in Requests(slots, played, hand, elapsed, duration, articulation, ind) {
      PlaysOnHandChannels(slots, played, hand, elapsed, duration, articulation, ind, r);
    } else {
      assert r == Play(Channel(ind, hand), slots[ind].s);
    }
  }

  // ---------------------------------------------------------------------
  // The main loop

  datatype Key = Escape | OtherKey
  datatype Event = KeyUp(key: Key) | MouseUp | OtherEvent

  /**
   * One tick's inputs: the pointer, the milliseconds since the start as
   * read by each hand's play_notes call (the clock is read once per call,
   * hand 0 first, so elapsed0 <= elapsed1), and the queued events.
   */
  datatype TickInput = TickInput(mouseX: int, mouseY: int, elapsed0: int, elapsed1: int, events: seq<Event>)

  /** The pointer is on the close button: at most CLOSE_WIDTH from the right edge and CLOSE_HEIGHT from the top. */
  predicate OnClose(monW: int, x: int, y: int)
  {
    x >= monW - CLOSE_WIDTH && y <= CLOSE_HEIGHT
  }

  /** An event that ends the loop, given whether the close button was hovered on the tick before. */
  predicate Ends(e: Event, closed: bool)
  {
    e == KeyUp(Escape) || (e == MouseUp && closed)
  }

  class Piano {
    /** The monitor's width in pixels. */
    const monW: int
    /** The keyboard's key objects. */
    const notes: seq<Note>
    /** The two expanded hands. */
    const slots0: seq<Slot>
    const slots1: seq<Slot>
    /** Milliseconds per slot. */
    const duration: int
    const articulation: string
    /** The pointer was on the close button when last checked. */
    var closed: bool
    var played0: seq<int>
    var played1: seq<int>
    var running: bool
    /** Every mixer request made so far, in order. */
    var requests: seq<Sound>

    ghost predicate Valid()
      reads this
    {
      DistinctKeys(notes) && NoDuplicates(played0) && NoDuplicates(played1)
    }

    constructor (monW: int, notes: seq<Note>, slots0: seq<Slot>, slots1: seq<Slot>, duration: int, articulation: string)
      requires DistinctKeys(notes)
      ensures Valid() && running && !closed && played0 == [] && played1 == [] && requests == []
      ensures this.monW == monW && this.notes == notes && this.slots0 == slots0 && this.slots1 == slots1
      ensures this.duration == duration && this.articulation == articulation
    {
      this.monW := monW;
      this.notes := notes;
      this.slots0 := slots0;
      this.slots1 := slots1;
      this.duration := duration;
      this.articulation := articulation;
      closed := false;
      played0 := [];
      played1 := [];
      running := true;
      requests := [];
    }

    /** Draws every key whose note name has the given length, in list order. */
    method DrawPass(len: int)
      requires DistinctKeys(notes)
      modifies NoteSet(notes)
      ensures forall k :: 0 <= k < |notes| ==>
        notes[k].color == (if |notes[k].keyType| == len
                           then Faded(old(notes[k].color), notes[k].initialColor, len == 1)
                           else old(notes[k].color))
    {
      for k := 0 to |notes|
        invariant forall j :: 0 <= j < |notes| ==>
          notes[j].color == (if j < k && |notes[j].keyType| == len
                             then Faded(old(notes[j].color), notes[j].initialColor, len == 1)
                             else old(notes[j].color))
      {
        if |notes[k].keyType| == len {
          notes[k].DrawNote();
        }
      }
    }

    /** One frame of the keyboard: white keys first, then the black keys over them. */
    method DrawKeys()
      requires DistinctKeys(notes)
      modifies NoteSet(notes)
      ensures forall k :: 0 <= k < |notes| ==>
        notes[k].color == (if |notes[k].keyType| == 1 || |notes[k].keyType| == 2
                           then Faded(old(notes[k].color), notes[k].initialColor, |notes[k].keyType| == 1)
                           else old(notes[k].color))
    {
      DrawPass(1);
      DrawPass(2);
    }

    /** The tick's events: Escape, or a mouse-up while the button was hovered, stop the loop. */
    method HandleEvents(events: seq<Event>)
      modifies this`running
      ensures running == (old(running) && forall i :: 0 <= i < |events| ==> !Ends(events[i], closed))
    {
      for i := 0 to |events|
        invariant running == (old(running) && forall j :: 0 <= j < i ==> !Ends(events[j], closed))
      {
        match events[i] {
          case KeyUp(key) =>
            if key == Escape {
              running := false;
            }
          case MouseUp =>
            if closed {
              running := false;
            }
          case OtherEvent =>
        }
      }
    }

    /**
     * One iteration of the main loop: both hands play what is due, the
     * keys are drawn (fading by one step), the events are handled against
     * the previous tick's hover state, and the hover state is updated.
     */
    method Tick(input: TickInput)
      requires Valid()
      modifies this, NoteSet(notes)
      ensures Valid()
      ensures played0 == old(played0) + Struck(slots0, old(played0), input.elapsed0, duration, |slots0|)
      ensures played1 == old(played1) + Struck(slots1, old(played1), input.elapsed1, duration, |slots1|)
      ensures requests == old(requests)
        + Requests(slots0, old(played0), 0, input.elapsed0, duration, articulation, |slots0|)
        + Requests(slots1, old(played1), 1, input.elapsed1, duration, articulation, |slots1|)
      ensures forall k :: 0 <= k < |notes| ==>
        var lit := notes[k].key in StruckKeys(slots0, old(played0), input.elapsed0, duration)
                || notes[k].key in StruckKeys(slots1, old(played1), input.elapsed1, duration);
        var struck := if lit then LitColor(notes[k].keyType) else old(notes[k].color);
        notes[k].color == (if |notes[k].keyType| == 1 || |notes[k].keyType| == 2
                           then Faded(struck, notes[k].initialColor, |notes[k].keyType| == 1)
                           else struck)
      ensures running == (old(running) && forall i :: 0 <= i < |input.events| ==> !Ends(input.events[i], old(closed)))
      ensures closed == OnClose(monW, input.mouseX, input.mouseY)
    {
      PlayedStaysDistinct(slots0, played0, input.elapsed0, duration);
      PlayedStaysDistinct(slots1, played1, input.elapsed1, duration);
      var p0, r0 := PlayNotes(slots0, played0, 0, input.elapsed0, duration, articulation, notes);
      var p1, r1 := PlayNotes(slots1, played1, 1, input.elapsed1, duration, articulation, notes);
      played0, played1 := p0, p1;
      requests := requests + r0 + r1;
      DrawKeys();
      HandleEvents(input.events);
      closed := input.mouseX >= monW - CLOSE_WIDTH && input.mouseY <= CLOSE_HEIGHT;
    }

    /** The main loop over a script of ticks, while running. */
    method Run(inputs: seq<TickInput>) returns (ticks: nat)
      requires Valid()
      modifies this, NoteSet(notes)
      ensures Valid() && ticks <= |inputs|
      ensures ticks < |inputs| ==> !running
      ensures old(played0) <= played0 && old(played1) <= played1 && old(requests) <= requests
    {
      ticks := 0;
      while running && ticks < |inputs|
        invariant Valid() && ticks <= |inputs|
        invariant old(played0) <= played0 && old(played1) <= played1 && old(requests) <= requests
      {
        Tick(inputs[ticks]);
        ticks := ticks + 1;
      }
    }
  }
}
