/** The receive window: which sequence numbers a link session accepts. */
module SequenceWindow {
  type U8 = x: int | 0 <= x < 0x100

  // ---- The wire contract's own classification -----------------------------------------------

  datatype Disposition = Next | Duplicate | Gap(missed: nat) | Stale

  function Delta(previous: U8, received: U8): U8 {
    if received >= previous then received - previous else received - previous + 0x100
  }

  /** classify_sequence. */
  function Classify(previous: U8, received: U8): Disposition {
    var delta := Delta(previous, received);
    if delta == 0 then Duplicate
    else if delta == 1 then Next
    else if delta < 0x80 then Gap(delta - 1)
    else Stale
  }

  // ---- The plane's registers ----------------------------------------------------------------

  /** The last in-window frame of this session, if there was one. */
  datatype Window = Window(valid: bool, last: U8)

  /** The classes registered with a staged frame. */
  datatype Classes = Classes(allowed: bool, duplicate: bool, stale: bool, gap: bool)

  function ClassesOf(w: Window, sequence: U8): Classes {
    var delta := Delta(w.last, sequence);
    Classes(!w.valid || (delta != 0 && delta < 0x80), w.valid && delta == 0, w.valid && delta >= 0x80,
            w.valid && 1 < delta < 0x80)
  }

  /** The registered classes are the contract's, once a session has a last frame. */
  lemma ClassesAgree(w: Window, sequence: U8)
    requires w.valid
    ensures var c, d := ClassesOf(w, sequence), Classify(w.last, sequence);
            (c.allowed <==> d.Next? || d.Gap?) && (c.duplicate <==> d.Duplicate?) &&
            (c.stale <==> d.Stale?) && (c.gap <==> d.Gap?)
  {
  }

  function NextWindow(w: Window, sequence: U8): Window {
    if ClassesOf(w, sequence).allowed then Window(true, sequence) else w
  }

  /** Staging and accepting a frame; a frame is staged before the one before it has moved the window on. */
  class ReceiveWindow {
    var window: Window
    var stagedValid: bool
    var stagedSequence: U8
    var classes: Classes

    constructor ()
      ensures Valid() && !window.valid && !stagedValid
    {
      window, stagedValid, stagedSequence := Window(false, 0), false, 0;
      classes := Classes(false, false, false, false);
    }

    /** The classes of a staged frame are still those of the window it will meet. */
    ghost predicate Valid()
      reads this
    {
      stagedValid ==> classes == ClassesOf(window, stagedSequence)
    }

    method Stage(sequence: U8)
      requires Valid() && !stagedValid
      modifies `stagedValid, `stagedSequence, `classes
      ensures Valid() && stagedValid && stagedSequence == sequence
    {
      var delta := Delta(window.last, sequence);
      stagedValid, stagedSequence := true, sequence;
      classes := Classes(!window.valid || (delta != 0 && delta < 0x80), window.valid && delta == 0,
                         window.valid && delta >= 0x80, window.valid && delta > 1 && delta < 0x80);
    }

    /** The window moves for every allowed frame, whatever becomes of its content. */
    method Accept(contentOk: bool) returns (acted: bool)
      requires Valid() && stagedValid
      modifies `window, `stagedValid
      ensures Valid() && !stagedValid
      ensures window == NextWindow(old(window), old(stagedSequence))
      ensures acted == (contentOk && ClassesOf(old(window), old(stagedSequence)).allowed)
    {
      acted := contentOk && classes.allowed;
      if classes.allowed {
        window := Window(true, stagedSequence);
      }
      stagedValid := false;
    }

    method Invalidate()
      modifies `window, `stagedValid
      ensures Valid() && !window.valid && !stagedValid
    {
      window, stagedValid := window.(valid := false), false;
    }
  }

  // ---- One session --------------------------------------------------------------------------

  /** The byte a frame with this running number carries. */
  function Byte(number: nat): U8 { number % 0x100 }

  /** The window after the first n frames of a session, by their running numbers. */
  function Session(frames: seq<nat>, n: nat): Window
    requires n <= |frames|
  {
    if n == 0 then Window(false, 0) else NextWindow(Session(frames, n - 1), Byte(frames[n - 1]))
  }

  predicate Accepted(frames: seq<nat>, k: nat)
    requires k < |frames|
  {
    ClassesOf(Session(frames, k), Byte(frames[k])).allowed
  }

  /** The newest frame among the first n. */
  function Newest(frames: seq<nat>, n: nat): nat
    requires 0 < n <= |frames|
  {
    if n == 1 then frames[0]
    else if frames[n - 1] > Newest(frames, n - 1) then frames[n - 1] else Newest(frames, n - 1)
  }

  /** The link reorders, repeats and loses, but no frame strays further than half the number space. */
  predicate Near(frames: seq<nat>, n: nat)
    requires n <= |frames|
  {
    forall k :: 0 < k < n ==> frames[k] < Newest(frames, k) + 0x80 && Newest(frames, k) <= frames[k] + 0x80
  }

  lemma DeltaOfNumbers(a: nat, b: nat)
    requires b < a + 0x80 && a <= b + 0x80
    ensures Delta(Byte(a), Byte(b)) != 0 && Delta(Byte(a), Byte(b)) < 0x80 <==> b > a
  {
    var q, r := a / 0x100, a % 0x100;
    assert a == 0x100 * q + r;
    var s := b - 0x100 * q;
    if s < 0 {
      assert Byte(b) == s + 0x100;
    } else if s >= 0x100 {
      assert Byte(b) == s - 0x100;
    } else {
      assert Byte(b) == s;
    }
  }

  lemma {:induction false} SessionTracksNewest(frames: seq<nat>, n: nat)
    requires 0 < n <= |frames| && Near(frames, n)
    ensures Session(frames, n) == Window(true, Byte(Newest(frames, n)))
    decreases n
  {
    if n == 1 {
      assert Session(frames, 0) == Window(false, 0);
    } else {
      SessionTracksNewest(frames, n - 1);
      DeltaOfNumbers(Newest(frames, n - 1), frames[n - 1]);
    }
  }

  /**
   * A frame is accepted exactly if it is newer than every frame before it, however many of those
   * were refused for their content: nothing is ever accepted twice, and nothing new is blacked out.
   */
  lemma AcceptsExactlyTheNewer(frames: seq<nat>, k: nat)
    requires 0 < k < |frames| && Near(frames, k + 1)
    ensures Accepted(frames, k) <==> frames[k] > Newest(frames, k)
  {
    SessionTracksNewest(frames, k);
    DeltaOfNumbers(Newest(frames, k), frames[k]);
  }

  /** What the plane counts a frame as: the first of a session is new, any other goes by its distance. */
  lemma ClassedByAge(frames: seq<nat>, k: nat)
    requires k < |frames| && Near(frames, k + 1)
    ensures k == 0 ==> ClassesOf(Session(frames, k), Byte(frames[k])) == Classes(true, false, false, false)
    ensures k > 0 ==>
      var newest := Newest(frames, k);
      ClassesOf(Session(frames, k), Byte(frames[k])) ==
        Classes(frames[k] > newest, frames[k] == newest, frames[k] < newest, frames[k] > newest + 1)
  {
    if k > 0 {
      SessionTracksNewest(frames, k);
      DeltaOfNumbers(Newest(frames, k), frames[k]);
      NumbersApart(Newest(frames, k), frames[k]);
    }
  }

  lemma NumbersApart(a: nat, b: nat)
    requires b < a + 0x80 && a <= b + 0x80
    ensures Delta(Byte(a), Byte(b)) == 0 <==> b == a
    ensures Delta(Byte(a), Byte(b)) == 1 <==> b == a + 1
  {
    var q := a / 0x100;
    assert a == 0x100 * q + a % 0x100;
    var s := b - 0x100 * q;
    assert Byte(b) == if s < 0 then s + 0x100 else if s >= 0x100 then s - 0x100 else s;
  }

  lemma {:induction false} NewestIsNewest(frames: seq<nat>, n: nat, k: nat)
    requires k < n <= |frames|
    ensures frames[k] <= Newest(frames, n)
    decreases n
  {
    if k < n - 1 {
      NewestIsNewest(frames, n - 1, k);
    }
  }

  /** So the accepted running numbers strictly increase over the session. */
  lemma AcceptedIncrease(frames: seq<nat>, j: nat, k: nat)
    requires j < k < |frames| && Near(frames, k + 1) && Accepted(frames, k)
    ensures frames[j] < frames[k]
  {
    AcceptsExactlyTheNewer(frames, k);
    NewestIsNewest(frames, k, j);
  }

  /** A window frozen on refused content would turn away the next 128 frames. */
  lemma FrozenWindowBlacksOut(last: nat, ahead: nat)
    requires 0x80 <= ahead <= 0x100
    ensures !ClassesOf(Window(true, Byte(last)), Byte(last + ahead)).allowed
  {
    if ahead < 0x100 {
      DeltaOfNumbers(last + 0x100, last + ahead);
    }
    assert Byte(last + 0x100) == Byte(last);
  }
}
