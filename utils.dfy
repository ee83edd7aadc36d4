/** Helpers of utils/utils.go: integer ranges, membership, concatenation and fail-hard / fail-soft parsing. */
module Utils {
  import opened Wrappers
  import opened GoStrings

  /** An inclusive range of integers, as built by `NewIntRange`. */
  datatype IntRange = IntRange(start: int, end: int)

  /** What `Step` returns: `start, start + step, ...` while the value stays within `end`. */
  function Stepped(r: IntRange, step: int): seq<int>
    decreases if r.start <= r.end then r.end - r.start + 1 else 0
  {
    if step <= 0 || r.start > r.end then []
    else [r.start] + Stepped(IntRange(r.start + step, r.end), step)
  }

  /**
   * For a positive step the range holds the arithmetic progression from
   * `start`, every element is at most `end`, and one more step would pass
   * `end`; a non-positive step gives nothing.
   */
  lemma {:induction false} SteppedIsProgression(r: IntRange, step: int)
    ensures step <= 0 ==> Stepped(r, step) == []
    ensures r.start > r.end ==> Stepped(r, step) == []
    ensures step > 0 ==> forall i :: 0 <= i < |Stepped(r, step)| ==>
      Stepped(r, step)[i] == r.start + i * step && Stepped(r, step)[i] <= r.end
    ensures step > 0 ==> r.start + |Stepped(r, step)| * step > r.end
    decreases if r.start <= r.end then r.end - r.start + 1 else 0
  {
    if step > 0 && r.start <= r.end {
      var next := IntRange(r.start + step, r.end);
      SteppedIsProgression(next, step);
      var s := Stepped(r, step);
      assert s[1..] == Stepped(next, step);
      forall i | 0 <= i < |s|
        ensures s[i] == r.start + i * step && s[i] <= r.end
      {
        if i > 0 {
          assert s[i] == Stepped(next, step)[i - 1];
          assert (i - 1) * step + step == i * step;
        }
      }
      assert r.start + step + |Stepped(next, step)| * step == r.start + |s| * step;
    }
  }

  /** The number of elements of a non-empty range. */
  lemma {:induction false} SteppedLength(r: IntRange, step: int)
    requires step > 0 && r.start <= r.end
    ensures |Stepped(r, step)| == (r.end - r.start) / step + 1
    decreases r.end - r.start
  {
    var next := IntRange(r.start + step, r.end);
    if next.start <= r.end {
      SteppedLength(next, step);
      assert (r.end - r.start) / step == (r.end - r.start - step) / step + 1 by {
        DivShift(r.end - r.start - step, step);
      }
    } else {
      assert 0 <= r.end - r.start < step;
      assert (r.end - r.start) / step == 0;
    }
  }

  lemma DivShift(a: int, b: int)
    requires a >= 0 && b > 0
    ensures (a + b) / b == a / b + 1
  {
    var q, m := a / b, a % b;
    assert a + b == (q + 1) * b + m;
    DivUnique(a + b, b, q + 1, m);
  }

  lemma DivUnique(a: int, b: int, q: int, m: int)
    requires b > 0 && 0 <= m < b && a == q * b + m
    ensures a / b == q
  {
    var q', m' := a / b, a % b;
    assert a == q' * b + m';
    if q > q' {
      assert (q - q') * b == q * b - q' * b;
      MulAtLeast(q - q', b);
    } else if q < q' {
      assert (q' - q) * b == q' * b - q * b;
      MulAtLeast(q' - q, b);
    }
  }

  lemma {:induction false} MulAtLeast(x: int, b: int)
    requires x >= 1 && b > 0
    ensures x * b >= b
    decreases x
  {
    if x > 1 {
      MulAtLeast(x - 1, b);
      assert x * b == (x - 1) * b + b;
    }
  }

  /** `Step`: the loop of utils.go, building the range element by element. */
  method Step(r: IntRange, step: int) returns (result: seq<int>)
    ensures result == Stepped(r, step)
  {
    if step <= 0 {
      return [];
    }
    result := [];
    var i := r.start;
    while i <= r.end
      invariant Stepped(r, step) == result + Stepped(IntRange(i, r.end), step)
      decreases r.end - i
    {
      result := result + [i];
      i := i + step;
    }
  }

  /** `ValueInArray`: a linear search for an equal element. */
  method ValueInArray<T(==)>(value: T, items: seq<T>) returns (found: bool)
    ensures found <==> value in items
  {
    var i := 0;
    while i < |items|
      invariant 0 <= i <= |items|
      invariant value !in items[..i]
    {
      if items[i] == value {
        return true;
      }
      i := i + 1;
    }
    return false;
  }

  /** The left-to-right concatenation of the strings. */
  function Concat(strings: seq<string>): string
    decreases |strings|
  {
    if strings == [] then "" else Concat(strings[..|strings| - 1]) + strings[|strings| - 1]
  }

  /** Concatenation peels off from the front as well as from the back. */
  lemma {:induction false} ConcatCons(head: string, tail: seq<string>)
    ensures Concat([head] + tail) == head + Concat(tail)
    decreases |tail|
  {
    if tail != [] {
      var last := tail[|tail| - 1];
      assert ([head] + tail)[..|tail|] == [head] + tail[..|tail| - 1];
      ConcatCons(head, tail[..|tail| - 1]);
    }
  }

  /** `ConcatenateStrings`: appends each argument to an accumulator. */
  method ConcatenateStrings(strings: seq<string>) returns (result: string)
    ensures result == Concat(strings)
    ensures |result| == |Concat(strings)|
  {
    result := "";
    var i := 0;
    while i < |strings|
      invariant 0 <= i <= |strings|
      invariant result == Concat(strings[..i])
    {
      assert strings[..i + 1][..i] == strings[..i];
      result := result + strings[i];
      i := i + 1;
    }
    assert strings[..|strings|] == strings;
  }

  /**
   * `ParseInt`: `strconv.Atoi`, and a panic (here `Err(Panic)`) when the text
   * is not a 64-bit decimal integer. It never falls back to a default.
   */
  function ParseInt(s: string): (r: Result<int, Error>)
    ensures r.Ok? <==> Atoi(s).Some?
    ensures r.Ok? ==> r.value == Atoi(s).value
    ensures r.Err? ==> r.error.Panic?
  {
    match Atoi(s)
    case Some(v) => Ok(v)
    case None => Err(Panic("failed to parse int"))
  }

  lemma ParseIntItoa(n: int)
    requires MinInt64 <= n <= MaxInt64
    ensures ParseInt(Itoa(n)) == Ok(n)
  {
    AtoiItoa(n);
  }

  /**
   * A 32-bit float, denoted by the decimal literal it was parsed from. The
   * model never computes with floats; it only tracks which text a field
   * came from.
   */
  datatype Float32 = Float32(literal: string)

  const Zero: Float32 := Float32("0")

  /** The literals the model accepts: an optional sign, digits, at most one point, at least one digit. */
  predicate IsDecimalLiteral(s: string) {
    var body := if |s| > 0 && (s[0] == '-' || s[0] == '+') then s[1..] else s;
    && (exists i :: 0 <= i < |body| && IsDigit(body[i]))
    && (forall i :: 0 <= i < |body| ==> IsDigit(body[i]) || body[i] == '.')
    && (forall i, j :: 0 <= i < j < |body| && body[i] == '.' ==> body[j] != '.')
  }

  /** `ParseFloat32`: on malformed text it returns the parse of "0" instead of failing. */
  function ParseFloat32(s: string): Float32
    decreases if IsDecimalLiteral(s) then 0 else 1
  {
    if IsDecimalLiteral(s) then Float32(s)
    else
      assert IsDecimalLiteral("0") by { assert IsDigit("0"[0]); }
      ParseFloat32("0")
  }

  /** The fail-soft policy: a well-formed literal is kept, anything else reads as zero. */
  lemma ParseFloat32FailSoft(s: string)
    ensures IsDecimalLiteral(s) ==> ParseFloat32(s) == Float32(s)
    ensures !IsDecimalLiteral(s) ==> ParseFloat32(s) == ParseFloat32("0") == Zero
  {
    assert IsDecimalLiteral("0") by { assert IsDigit("0"[0]); }
  }
}
