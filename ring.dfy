/** The ring-buffer reuse policy: an unbounded acquisition frame counter is
    mapped onto a fixed ring of buffers by `acq_frame_nb % nb_buffers`. */
module Ring {

  /** The buffer that receives frame `frameNb` in a ring of `nbBuffers`
      buffers. For a non-negative frame number C++'s `%` and Dafny's agree. */
  function Slot(frameNb: int, nbBuffers: int): (s: int)
    requires frameNb >= 0 && nbBuffers > 0
    ensures 0 <= s < nbBuffers
    ensures frameNb < nbBuffers ==> s == frameNb
  {
    frameNb % nbBuffers
  }

  /** Frames `f` and `f + nbBuffers` share a buffer: the ring wraps. */
  lemma SlotWrapsAfterOneTurn(f: nat, nbBuffers: int)
    requires nbBuffers > 0
    ensures Slot(f + nbBuffers, nbBuffers) == Slot(f, nbBuffers)
  {
    var q, m := f / nbBuffers, f % nbBuffers;
    assert f + nbBuffers == (q + 1) * nbBuffers + m;
    DivModUnique(f + nbBuffers, nbBuffers, q + 1, m);
  }

  /** The pair (quotient, remainder) of a non-negative number is unique. */
  lemma DivModUnique(a: nat, b: int, q: int, m: int)
    requires b > 0 && 0 <= m < b && a == q * b + m
    ensures a % b == m && a / b == q
  {
    var q0, m0 := a / b, a % b;
    assert (q0 - q) * b == m - m0 by {
      assert q0 * b + m0 == q * b + m;
    }
    if q0 != q {
      var d := if q0 > q then q0 - q else q - q0;
      AtLeastOneTimes(d, b);
    }
  }

  lemma AtLeastOneTimes(d: int, b: int)
    requires d >= 1 && b > 0
    ensures d * b >= b
  {
    assert d * b == (d - 1) * b + b;
  }

  /** After `turns` full turns of the ring a frame lands where it did before. */
  lemma {:induction false} SlotPeriodic(f: nat, nbBuffers: int, turns: nat)
    requires nbBuffers > 0
    ensures Slot(f + turns * nbBuffers, nbBuffers) == Slot(f, nbBuffers)
  {
    if turns > 0 {
      SlotPeriodic(f, nbBuffers, turns - 1);
      SlotWrapsAfterOneTurn(f + (turns - 1) * nbBuffers, nbBuffers);
      assert f + turns * nbBuffers == f + (turns - 1) * nbBuffers + nbBuffers;
    }
  }

  /** The wrap-around law: during the turn that starts at frame
      `turns * nbBuffers`, frames go to buffers 0, 1, ..., nbBuffers - 1 in order. */
  lemma SlotDuringTurn(turns: nat, nbBuffers: int, k: int)
    requires nbBuffers > 0 && 0 <= k < nbBuffers
    ensures Slot(turns * nbBuffers + k, nbBuffers) == k
  {
    SlotPeriodic(k, nbBuffers, turns);
  }

  /** Consecutive frames go to consecutive buffers, the last one followed by
      the first. */
  lemma SlotNext(f: nat, nbBuffers: int)
    requires nbBuffers > 0
    ensures Slot(f + 1, nbBuffers) ==
      if Slot(f, nbBuffers) == nbBuffers - 1 then 0 else Slot(f, nbBuffers) + 1
  {
    var q, m := f / nbBuffers, f % nbBuffers;
    if m == nbBuffers - 1 {
      DivModUnique(f + 1, nbBuffers, q + 1, 0);
    } else {
      DivModUnique(f + 1, nbBuffers, q, m + 1);
    }
  }

  /** Any `nbBuffers` consecutive frames use every buffer exactly once: two
      distinct frames of the window never share a buffer, and every buffer
      receives a frame of the window. */
  lemma SlotWindowIsOneTurn(f: nat, nbBuffers: int, s: int)
    requires nbBuffers > 0 && 0 <= s < nbBuffers
    ensures forall g, h :: f <= g < h < f + nbBuffers ==>
      Slot(g, nbBuffers) != Slot(h, nbBuffers)
    ensures exists g :: f <= g < f + nbBuffers && Slot(g, nbBuffers) == s
  {
    var m := f % nbBuffers;
    forall g, h | f <= g < h < f + nbBuffers
      ensures Slot(g, nbBuffers) != Slot(h, nbBuffers)
    {
      SlotOffset(f, nbBuffers, g - f);
      SlotOffset(f, nbBuffers, h - f);
    }
    var k := if s >= m then s - m else s - m + nbBuffers;
    SlotOffset(f, nbBuffers, k);
    assert Slot(f + k, nbBuffers) == s;
  }

  /** The buffer of frame `f + k`, for an offset `k` within one turn. */
  lemma SlotOffset(f: nat, nbBuffers: int, k: int)
    requires nbBuffers > 0 && 0 <= k < nbBuffers
    ensures Slot(f + k, nbBuffers) ==
      if f % nbBuffers + k < nbBuffers then f % nbBuffers + k
      else f % nbBuffers + k - nbBuffers
  {
    var q, m := f / nbBuffers, f % nbBuffers;
    if m + k < nbBuffers {
      DivModUnique(f + k, nbBuffers, q, m + k);
    } else {
      DivModUnique(f + k, nbBuffers, q + 1, m + k - nbBuffers);
    }
  }
}
