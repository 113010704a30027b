/** numpy.linspace over the reals, the sample grid behind every sweep in the calculators. */
module Grid {
  import opened Algebra

  /** Every sweep in the calculators takes this many samples. */
  const Samples: nat := 100

  /** The distance between neighbouring samples of `Linspace(start, stop, num)`. */
  function Step(start: real, stop: real, num: nat): real {
    if num >= 2 then (stop - start) / (num - 1) as real else 0.0
  }

  /** `numpy.linspace(start, stop, num)` with its default endpoint=True: `num` evenly
      spaced samples from `start` to `stop`, both included (a single sample is `start`). */
  function Linspace(start: real, stop: real, num: nat): (r: seq<real>)
    ensures |r| == num
    ensures num >= 1 ==> r[0] == start
    ensures num >= 2 ==> r[num - 1] == stop
    ensures forall i :: 0 <= i < num ==> r[i] == start + (i as real) * Step(start, stop, num)
  {
    var st := Step(start, stop, num);
    var s := seq(num, i requires 0 <= i < num => start + (i as real) * st);
    if num >= 2 then
      var last := num - 1;
      assert s[last] == start + (last as real) * st;
      assert (last as real) * st == stop - start;
      s
    else
      s
  }

  /** Two samples are as far apart as their index distance times the step. */
  lemma LinspaceGap(start: real, stop: real, num: nat, i: int, j: int)
    requires 0 <= i <= j < num
    ensures Linspace(start, stop, num)[j] - Linspace(start, stop, num)[i]
            == ((j - i) as real) * Step(start, stop, num)
  {
    var st := Step(start, stop, num);
    calc {
      Linspace(start, stop, num)[j] - Linspace(start, stop, num)[i];
      (start + (j as real) * st) - (start + (i as real) * st);
      ((j - i) as real) * st;
    }
  }

  /** An ascending range gives a non-decreasing grid inside [start, stop], strictly
      increasing when start < stop. */
  lemma LinspaceOrdered(start: real, stop: real, num: nat)
    requires start <= stop
    ensures forall i, j :: 0 <= i <= j < num ==> Linspace(start, stop, num)[i] <= Linspace(start, stop, num)[j]
    ensures start < stop ==> forall i, j :: 0 <= i < j < num ==> Linspace(start, stop, num)[i] < Linspace(start, stop, num)[j]
    ensures forall i :: 0 <= i < num ==> start <= Linspace(start, stop, num)[i] <= stop
  {
    var r := Linspace(start, stop, num);
    var st := Step(start, stop, num);
    assert st >= 0.0;
    assert start < stop && num >= 2 ==> st > 0.0;
    forall i, j | 0 <= i <= j < num
      ensures r[i] <= r[j]
      ensures start < stop && i < j ==> r[i] < r[j]
    {
      LinspaceGap(start, stop, num, i, j);
      MulNonNeg((j - i) as real, st);
      if start < stop && i < j {
        MulPos((j - i) as real, st);
      }
    }
    forall i | 0 <= i < num
      ensures start <= r[i] <= stop
    {
      LinspaceGap(start, stop, num, 0, i);
      LinspaceGap(start, stop, num, i, num - 1);
      MulNonNeg(i as real, st);
      MulNonNeg((num - 1 - i) as real, st);
    }
  }
}
