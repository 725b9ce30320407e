/** CAN bit stuffing as an operation on explicit bit lists (section 5 of the Bosch CAN
    Specification 2.0, Part A): after five consecutive equal bits, stuff bits included, one
    complementary bit is inserted. */
module BitStuffing {

  type Bits = seq<bool>

  /** The last `n` bits exist and are equal. */
  predicate EndsEqual(s: Bits, n: nat) {
    n <= |s| && forall j :: |s| - n <= j < |s| ==> s[j] == s[|s| - 1]
  }

  function Stuffed(bits: Bits): Bits {
    if bits == [] then []
    else
      var bit := bits[|bits| - 1];
      var out := Stuffed(bits[..|bits| - 1]) + [bit];
      if EndsEqual(out, 5) then out + [!bit] else out
  }

  /** What a receiver does: every bit right after five equal bits is dropped. */
  function Unstuffed(s: Bits): Bits {
    if s == [] then []
    else
      var front := s[..|s| - 1];
      Unstuffed(front) + if EndsEqual(front, 5) then [] else [s[|s| - 1]]
  }

  /** The length of the run of equal bits at the end. */
  function TrailingRun(s: Bits): nat {
    if |s| <= 1 then |s|
    else if s[|s| - 1] == s[|s| - 2] then TrailingRun(s[..|s| - 1]) + 1
    else 1
  }

  lemma {:induction false} RunMeansEqual(s: Bits, n: nat)
    requires n > 0
    ensures EndsEqual(s, n) <==> n <= TrailingRun(s)
    decreases |s|
  {
    if |s| >= 2 {
      var front := s[..|s| - 1];
      if n >= 2 {
        RunMeansEqual(front, n - 1);
        if s[|s| - 1] == s[|s| - 2] {
          if EndsEqual(front, n - 1) {
            forall j | |s| - n <= j < |s| ensures s[j] == s[|s| - 1] {
              if j < |front| { assert front[j] == front[|front| - 1]; }
            }
          }
          if EndsEqual(s, n) {
            forall j | |front| - (n - 1) <= j < |front| ensures front[j] == front[|front| - 1] {
              assert s[j] == s[|s| - 1];
            }
          }
        }
      }
    }
  }

  /** How one more bit changes the trailing run. */
  lemma RunAfter(s: Bits, bit: bool)
    ensures TrailingRun(s + [bit]) == if s != [] && s[|s| - 1] == bit then TrailingRun(s) + 1 else 1
  {
  }

  /** The stuffed list never ends in a run of five, and an inserted bit starts a new run. */
  lemma {:induction false} StuffedRun(bits: Bits)
    ensures TrailingRun(Stuffed(bits)) <= 4
    ensures bits != [] ==> TrailingRun(Stuffed(bits)) >= 1 && Stuffed(bits) != []
  {
    if bits != [] {
      var bit, before := bits[|bits| - 1], Stuffed(bits[..|bits| - 1]);
      StuffedRun(bits[..|bits| - 1]);
      RunAfter(before, bit);
      RunMeansEqual(before + [bit], 5);
      RunAfter(before + [bit], !bit);
    }
  }

  lemma {:induction false} PrefixRun(bits: Bits, m: nat)
    requires m <= |Stuffed(bits)|
    ensures TrailingRun(Stuffed(bits)[..m]) <= 5
  {
    if bits != [] {
      var front := bits[..|bits| - 1];
      var before, s := Stuffed(front), Stuffed(bits);
      if m <= |before| {
        PrefixRun(front, m);
        assert s[..m] == before[..m];
      } else if m == |s| {
        StuffedRun(bits);
        assert s[..m] == s;
      } else {
        StuffedRun(front);
        RunAfter(before, bits[|bits| - 1]);
        assert s[..m] == before + [bits[|bits| - 1]];
      }
    }
  }

  /** No six consecutive bits of a stuffed list are equal. */
  lemma NeverSixEqual(bits: Bits, i: nat)
    requires i + 6 <= |Stuffed(bits)|
    ensures exists j :: i <= j < i + 5 && Stuffed(bits)[j] != Stuffed(bits)[i + 5]
  {
    var s := Stuffed(bits)[..i + 6];
    PrefixRun(bits, i + 6);
    RunMeansEqual(s, 6);
    var j :| |s| - 6 <= j < |s| && s[j] != s[|s| - 1];
    assert Stuffed(bits)[j] == s[j];
  }

  lemma UnstuffNext(front: Bits, bit: bool, bits: Bits)
    requires Unstuffed(Stuffed(front)) == front && bits == front + [bit]
    ensures Unstuffed(Stuffed(bits)) == bits
  {
    var before := Stuffed(front);
    var out := before + [bit];
    StuffedRun(front);
    RunMeansEqual(before, 5);
    StepByStep(front, bit);
    UnstuffLast(before, bit);
    UnstuffLast(out, !bit);
    assert front + [bit] + [] == front + [bit];
  }

  lemma UnstuffLast(s: Bits, bit: bool)
    ensures Unstuffed(s + [bit]) == Unstuffed(s) + if EndsEqual(s, 5) then [] else [bit]
  {
    assert (s + [bit])[..|s|] == s;
  }

  /** Unstuffing a stuffed list gives back the original bits. */
  lemma {:induction false} UnstuffStuffed(bits: Bits)
    ensures Unstuffed(Stuffed(bits)) == bits
  {
    if bits != [] {
      var front, bit := bits[..|bits| - 1], bits[|bits| - 1];
      UnstuffStuffed(front);
      UnstuffNext(front, bit, bits);
    }
  }

  lemma StepByStep(bits: Bits, bit: bool)
    ensures Stuffed(bits + [bit])
            == var out := Stuffed(bits) + [bit]; if EndsEqual(out, 5) then out + [!bit] else out
  {
  }

  /** The invariant behind the bound: each inserted bit costs four input bits beyond the run. */
  lemma {:induction false} StuffingBound(bits: Bits)
    ensures |Stuffed(bits)| >= |bits|
    ensures 4 * (|Stuffed(bits)| - |bits|) + TrailingRun(Stuffed(bits)) <= |bits|
    ensures bits != [] ==> |Stuffed(bits)| - |bits| <= (|bits| - 1) / 4
  {
    if bits != [] {
      var bit, before := bits[|bits| - 1], Stuffed(bits[..|bits| - 1]);
      StuffingBound(bits[..|bits| - 1]);
      RunAfter(before, bit);
      RunMeansEqual(before + [bit], 5);
      RunAfter(before + [bit], !bit);
      StuffedRun(bits);
    }
  }
}
