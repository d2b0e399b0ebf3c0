/** The memory test's write-all, read-all passes (memtest.c). */
module MemTest {
  import opened Words
  import opened Mixer

  const CHUNK := 33554432

  const MISMATCH: u32 := 6
  const SUM_MISMATCH: u32 := 7
  const OUT_OF_TIME: u32 := 10

  /** No two indices share a cell. */
  ghost predicate NoAlias(cell: seq<nat>) {
    forall i, j :: 0 <= i < j < |cell| ==> cell[i] != cell[j]
  }

  /** The wrapped sum of the pattern over the first n indices. */
  function Sum(pass: u32, n: nat): u64
    requires n <= WORD
  {
    if n == 0 then 0 else (Sum(pass, n - 1) as int + Pattern(n - 1, pass) as int) % WORD
  }

  predicate Mapping(cells: seq<u64>, cell: seq<nat>) {
    |cell| <= WORD && forall i :: 0 <= i < |cell| ==> cell[i] < |cells|
  }

  /** The cells after the pattern was written at the first n indices: a cell
      holds what was last written to it. */
  function Written(cells: seq<u64>, cell: seq<nat>, pass: u32, n: nat): (r: seq<u64>)
    requires Mapping(cells, cell) && n <= |cell|
    ensures |r| == |cells|
  {
    if n == 0 then cells else Written(cells, cell, pass, n - 1)[cell[n - 1] := Pattern(n - 1, pass)]
  }

  /** Reading the first n indices gives the pattern at each of them. */
  ghost predicate Matches(cells: seq<u64>, cell: seq<nat>, pass: u32, n: nat)
    requires Mapping(cells, cell) && n <= |cell|
  {
    forall i :: 0 <= i < n ==> cells[cell[i]] == Pattern(i, pass)
  }

  lemma {:induction false} UnsharedKeepsPattern(cells: seq<u64>, cell: seq<nat>, pass: u32, n: nat)
    requires Mapping(cells, cell) && n <= |cell| && NoAlias(cell)
    ensures Matches(Written(cells, cell, pass, n), cell, pass, n)
  {
    hide Pattern;
    if n > 0 {
      UnsharedKeepsPattern(cells, cell, pass, n - 1);
    }
  }

  lemma MatchingMeansNoAlias(cells: seq<u64>, cell: seq<nat>, pass: u32)
    requires Mapping(cells, cell) && Matches(cells, cell, pass, |cell|)
    ensures NoAlias(cell)
  {
    forall i, j | 0 <= i < j < |cell| ensures cell[i] != cell[j] {
      if cell[i] == cell[j] {
        PatternInjective(i, j, pass);
      }
    }
  }

  /** Every alias is detected: after a full write pass every read matches exactly
      when no two indices share a cell, whatever the cells held before. */
  lemma PassDetectsEveryAlias(cells: seq<u64>, cell: seq<nat>, pass: u32)
    requires Mapping(cells, cell)
    ensures Matches(Written(cells, cell, pass, |cell|), cell, pass, |cell|) <==> NoAlias(cell)
  {
    var after := Written(cells, cell, pass, |cell|);
    if NoAlias(cell) {
      UnsharedKeepsPattern(cells, cell, pass, |cell|);
    }
    if Matches(after, cell, pass, |cell|) {
      MatchingMeansNoAlias(after, cell, pass);
    }
  }

  lemma NothingYet(late: set<nat>, a: nat)
    ensures !LateIn(late, a, a)
  {
  }

  lemma InTwo(late: set<nat>, a: nat, m: nat, b: nat)
    requires a <= m <= b
    ensures LateIn(late, a, b) <==> LateIn(late, a, m) || LateIn(late, m, b)
  {
  }

  /** One of the readings from the a-th to before the b-th is past the limit. */
  ghost predicate LateIn(late: set<nat>, a: nat, b: nat) {
    exists n :: a <= n < b && n in late
  }

  class Tester {
    const cells: array<u64>
    const cell: seq<nat>
    /** The readings of the clock, by number, that are past the time limit. */
    const late: set<nat>
    var readings: nat

    constructor (cells: array<u64>, cell: seq<nat>, late: set<nat>)
      ensures this.cells == cells && this.cell == cell && this.late == late && readings == 0
    {
      this.cells, this.cell, this.late, readings := cells, cell, late, 0;
    }

    ghost predicate Mapped()
      reads this
    {
      |cell| <= WORD && forall i :: 0 <= i < |cell| ==> cell[i] < cells.Length
    }

    method TimeIsUp() returns (up: bool)
      modifies this
      ensures up == (old(readings) in late) && readings == old(readings) + 1
    {
      up := readings in late;
      readings := readings + 1;
    }

    /** The write pass: chunk after chunk, adding up what is written. */
    method WriteAll(pass: u32) returns (error: u32, expected: u64)
      requires Mapped()
      modifies this, cells
      ensures error in {0, OUT_OF_TIME} && old(readings) <= readings
      ensures error == OUT_OF_TIME <==> LateIn(late, old(readings), readings)
      ensures error == 0 ==> expected == Sum(pass, |cell|)
      ensures error == 0 ==> cells[..] == Written(old(cells[..]), cell, pass, |cell|)
    {
      hide Pattern;
      error, expected := 0, 0;
      var at := 0;
      while at < |cell|
        invariant 0 <= at <= |cell| && expected == Sum(pass, at)
        invariant old(readings) <= readings && !LateIn(late, old(readings), readings)
        invariant cells[..] == Written(old(cells[..]), cell, pass, at)
      {
        var end := if at + CHUNK > |cell| then |cell| else at + CHUNK;
        var i := at;
        while i < end
          invariant at <= i <= end && expected == Sum(pass, i)
          invariant old(readings) <= readings && !LateIn(late, old(readings), readings)
          invariant cells[..] == Written(old(cells[..]), cell, pass, i)
        {
          var v := Pattern(i, pass);
          cells[cell[i]] := v;
          expected := (expected as int + v as int) % WORD;
          i := i + 1;
        }
        var up := TimeIsUp();
        if up {
          error := OUT_OF_TIME;
          return;
        }
        at := end;
      }
    }

    /** The read pass: stops at the first word that is not the pattern. */
    method ReadAll(pass: u32) returns (error: u32, actual: u64)
      requires Mapped()
      modifies this
      ensures error in {0, MISMATCH, OUT_OF_TIME} && old(readings) <= readings
      ensures error == OUT_OF_TIME <==> LateIn(late, old(readings), readings)
      ensures error == 0 ==> actual == Sum(pass, |cell|) && Matches(cells[..], cell, pass, |cell|)
      ensures error == MISMATCH ==> !Matches(cells[..], cell, pass, |cell|)
    {
      hide Pattern;
      error, actual := 0, 0;
      var at := 0;
      while at < |cell|
        invariant 0 <= at <= |cell| && actual == Sum(pass, at)
        invariant old(readings) <= readings && !LateIn(late, old(readings), readings)
        invariant Matches(cells[..], cell, pass, at)
      {
        var end := if at + CHUNK > |cell| then |cell| else at + CHUNK;
        var i := at;
        while i < end
          invariant at <= i <= end && actual == Sum(pass, i)
          invariant old(readings) <= readings && !LateIn(late, old(readings), readings)
          invariant Matches(cells[..], cell, pass, i)
        {
          var v, wanted := cells[cell[i]], Pattern(i, pass);
          if v != wanted {
            error := MISMATCH;
            assert cells[..][cell[i]] != Pattern(i, pass);
            return;
          }
          actual := (actual as int + v as int) % WORD;
          i := i + 1;
        }
        var up := TimeIsUp();
        if up {
          error := OUT_OF_TIME;
          return;
        }
        at := end;
      }
    }

    /** The whole test.  It is out of time exactly when one of its readings of the
        clock is past the limit; otherwise it succeeds exactly when no two indices
        share a cell, and else reports a mismatch; the sums never disagree once
        every word has matched. */
    method Run(passes: u32) returns (error: u32)
      requires Mapped() && passes >= 1
      modifies this, cells
      ensures old(readings) <= readings
      ensures if LateIn(late, old(readings), readings) then error == 10
              else if NoAlias(cell) then error == 0
              else error == 6
    {
      hide Matches, Written, Sum, NoAlias, LateIn;
      NothingYet(late, readings);
      error := 0;
      var pass := 0;
      while pass < passes && error == 0
        invariant 0 <= pass <= passes
        invariant error in {0, MISMATCH, OUT_OF_TIME}
        invariant error == 0 && pass > 0 ==> NoAlias(cell)
        invariant error == MISMATCH ==> !NoAlias(cell)
        invariant old(readings) <= readings
        invariant error == OUT_OF_TIME <==> LateIn(late, old(readings), readings)
        decreases passes - pass, if error == 0 then 1 else 0
      {
        var expected, actual;
        ghost var before, start := cells[..], readings;
        error, expected := WriteAll(pass);
        InTwo(late, old(readings), start, readings);
        if error != 0 {
          break;
        }
        PassDetectsEveryAlias(before, cell, pass);
        start := readings;
        error, actual := ReadAll(pass);
        InTwo(late, old(readings), start, readings);
        if error != 0 {
          break;
        }
        if actual != expected {
          error := SUM_MISMATCH;
          break;
        }
        pass := pass + 1;
      }
    }
  }
}
