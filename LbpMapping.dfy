/** LBP mapping tables: the reduction of the 2^P raw patterns of P samples to
    the codes of the 'none', 'u2', 'ri' and 'riu2' mappings. A pattern is
    handled as its P bits, least significant (sample 0) first. */
module LbpMapping {
  import opened Bits

  datatype Mapping = NoMapping | Riu2 | U2 | Ri

  // ---------------------------------------------------------------------------
  // Circular rotation of a pattern

  /** Rotate-left of a P-bit pattern: every bit moves one place towards the
      most significant end and the top bit wraps round to bit 0. */
  function RotL(b: seq<bool>): (r: seq<bool>)
    requires |b| > 0
    ensures |r| == |b|
  {
    [b[|b| - 1]] + b[..|b| - 1]
  }

  /** The pattern rotated left j times. */
  function Rotate(b: seq<bool>, j: nat): (r: seq<bool>)
    requires j <= |b|
    ensures |r| == |b|
  {
    b[|b| - j..] + b[..|b| - j]
  }

  /** Where bit k of a j-fold rotation comes from. */
  function Source(k: nat, j: nat, n: nat): nat
    requires k < n && j <= n
  {
    if k >= j then k - j else k + n - j
  }

  lemma RotateAt(b: seq<bool>, j: nat, k: nat)
    requires j <= |b| && k < |b|
    ensures Source(k, j, |b|) < |b| && Rotate(b, j)[k] == b[Source(k, j, |b|)]
  {
  }

  lemma RotateZero(b: seq<bool>)
    ensures Rotate(b, 0) == b && Rotate(b, |b|) == b
  {
    assert b[|b|..] == [] && b[..|b|] == b;
    assert b[0..] == b && b[..0] == [];
  }

  /** One more rotate-left turns a j-fold rotation into a (j+1)-fold one. */
  lemma RotateStep(b: seq<bool>, j: nat)
    requires j < |b|
    ensures RotL(Rotate(b, j)) == Rotate(b, j + 1)
  {
    var c := Rotate(b, j);
    forall k | 0 <= k < |b| ensures RotL(c)[k] == Rotate(b, j + 1)[k] {
      RotateAt(b, j + 1, k);
      if k == 0 {
        RotateAt(b, j, |b| - 1);
      } else {
        RotateAt(b, j, k - 1);
      }
    }
  }

  /** The number of turns equal to i turns followed by j turns. */
  function Compose(i: nat, j: nat, n: nat): (s: nat)
    requires i < n && j < n
    ensures s < n
  {
    if i + j < n then i + j else i + j - n
  }

  lemma RotateCompose(b: seq<bool>, i: nat, j: nat)
    requires i < |b| && j < |b|
    ensures Rotate(Rotate(b, i), j) == Rotate(b, Compose(i, j, |b|))
  {
    var n := |b|;
    var s := Compose(i, j, n);
    forall k | 0 <= k < n ensures Rotate(Rotate(b, i), j)[k] == Rotate(b, s)[k] {
      RotateAt(Rotate(b, i), j, k);
      RotateAt(b, i, Source(k, j, n));
      RotateAt(b, s, k);
    }
  }

  /** Undoing i turns. */
  function Inverse(i: nat, n: nat): (r: nat)
    requires i < n
    ensures r < n && Compose(i, r, n) == 0
  {
    if i == 0 then 0 else n - i
  }

  // ---------------------------------------------------------------------------
  // Rotation classes and the 'ri' mapping

  function Min(a: nat, b: nat): nat { if a <= b then a else b }

  /** The least value among the rotations of b by 0, 1, ..., j turns. */
  function MinRotationUpTo(b: seq<bool>, j: nat): nat
    requires j < |b|
  {
    if j == 0 then Value(b) else Min(MinRotationUpTo(b, j - 1), Value(Rotate(b, j)))
  }

  lemma {:induction false} MinRotationUpToBelow(b: seq<bool>, j: nat, i: nat)
    requires i <= j < |b|
    ensures MinRotationUpTo(b, j) <= Value(Rotate(b, i))
  {
    if i == 0 {
      RotateZero(b);
    }
    if i < j {
      MinRotationUpToBelow(b, j - 1, i);
    }
  }

  lemma {:induction false} MinRotationUpToWitness(b: seq<bool>, j: nat) returns (i: nat)
    requires j < |b|
    ensures i <= j && MinRotationUpTo(b, j) == Value(Rotate(b, i))
  {
    if j == 0 {
      RotateZero(b);
      i := 0;
    } else {
      i := MinRotationUpToWitness(b, j - 1);
      if MinRotationUpTo(b, j) != MinRotationUpTo(b, j - 1) {
        i := j;
      }
    }
  }

  /** y is one of the P rotations of the P-bit pattern x. */
  ghost predicate IsRotationOf(y: nat, x: nat, p: nat)
    requires p >= 1
  {
    exists i :: 0 <= i < p && y == Value(Rotate(ToBits(x, p), i))
  }

  /** The least of the rotations of the P-bit pattern x: the representative
      of its rotation class. */
  function MinRotation(x: nat, p: nat): nat
    requires p >= 1
  {
    MinRotationUpTo(ToBits(x, p), p - 1)
  }

  /** MinRotation(x) is a rotation of x and no rotation of x is smaller. */
  lemma MinRotationIsLeast(x: nat, p: nat)
    requires p >= 1
    ensures IsRotationOf(MinRotation(x, p), x, p)
    ensures forall i :: 0 <= i < p ==> MinRotation(x, p) <= Value(Rotate(ToBits(x, p), i))
  {
    var b := ToBits(x, p);
    var w := MinRotationUpToWitness(b, p - 1);
    forall i | 0 <= i < p ensures MinRotationUpTo(b, p - 1) <= Value(Rotate(b, i)) {
      MinRotationUpToBelow(b, p - 1, i);
    }
  }

  /** The representative is a P-bit pattern no larger than x. */
  lemma MinRotationBounds(x: nat, p: nat)
    requires p >= 1 && x < Pow2(p)
    ensures MinRotation(x, p) <= x && MinRotation(x, p) < Pow2(p)
  {
    var b := ToBits(x, p);
    RotateZero(b);
    ValueOfToBits(x, p);
    MinRotationIsLeast(x, p);
    assert MinRotation(x, p) <= Value(Rotate(b, 0));
    var i :| 0 <= i < p && MinRotation(x, p) == Value(Rotate(b, i));
  }

  /** The value of j turns of an i-fold rotation is that of i+j turns. */
  lemma ComposedValue(b: seq<bool>, i: nat, j: nat)
    requires i < |b| && j < |b|
    ensures Value(Rotate(Rotate(b, i), j)) == Value(Rotate(b, Compose(i, j, |b|)))
  {
    RotateCompose(b, i, j);
  }

  /** b's least rotation is no larger than the value of any rotation of b;
      last is the index of b's top bit. */
  lemma LeastBelowValue(b: seq<bool>, last: nat, k: nat, m: nat)
    requires last + 1 == |b| && k <= last && m == Value(Rotate(b, k))
    ensures MinRotationUpTo(b, last) <= m
  {
    MinRotationUpToBelow(b, last, k);
  }

  /** The least rotation of a rotation of b is no smaller than b's own. */
  lemma LeastNotAboveRotation(b: seq<bool>, c: seq<bool>, last: nat, i: nat)
    requires last + 1 == |b| && i <= last && c == Rotate(b, i)
    ensures MinRotationUpTo(b, last) <= MinRotationUpTo(c, last)
  {
    var j := MinRotationUpToWitness(c, last);
    ComposedValue(b, i, j);
    LeastBelowValue(b, last, Compose(i, j, |b|), MinRotationUpTo(c, last));
  }

  /** A pattern and any of its rotations have the same least rotation. */
  lemma RotationsShareLeast(b: seq<bool>, c: seq<bool>, last: nat, i: nat)
    requires last + 1 == |b| && i <= last && c == Rotate(b, i)
    ensures MinRotationUpTo(b, last) == MinRotationUpTo(c, last)
  {
    LeastNotAboveRotation(b, c, last, i);
    RotateCompose(b, i, Inverse(i, |b|));
    RotateZero(b);
    LeastNotAboveRotation(c, b, last, Inverse(i, |b|));
  }

  lemma MinRotationOfValue(b: seq<bool>, last: nat)
    requires last + 1 == |b|
    ensures MinRotation(Value(b), |b|) == MinRotationUpTo(b, last)
  {
    ToBitsOfValue(b);
  }

  /** Rotating a pattern does not change its representative. */
  lemma MinRotationOfRotation(b: seq<bool>, i: nat)
    requires 0 <= i < |b|
    ensures MinRotation(Value(Rotate(b, i)), |b|) == MinRotation(Value(b), |b|)
  {
    var c := Rotate(b, i);
    var last := |b| - 1;
    MinRotationOfValue(b, last);
    MinRotationOfValue(c, last);
    RotationsShareLeast(b, c, last, i);
  }

  /** Two P-bit patterns have the same representative iff one is a rotation
      of the other. */
  lemma SameRotationClass(x: nat, y: nat, p: nat)
    requires p >= 1 && x < Pow2(p) && y < Pow2(p)
    ensures MinRotation(x, p) == MinRotation(y, p) <==> IsRotationOf(y, x, p)
  {
    var bX := ToBits(x, p);
    var bY := ToBits(y, p);
    ValueOfToBits(x, p);
    ValueOfToBits(y, p);
    if IsRotationOf(y, x, p) {
      var i :| 0 <= i < p && y == Value(Rotate(bX, i));
      MinRotationOfRotation(bX, i);
    }
    if MinRotation(x, p) == MinRotation(y, p) {
      var m := MinRotation(x, p);
      MinRotationIsLeast(x, p);
      MinRotationIsLeast(y, p);
      var i1 :| 0 <= i1 < p && m == Value(Rotate(bX, i1));
      var i2 :| 0 <= i2 < p && m == Value(Rotate(bY, i2));
      ValueInjective(Rotate(bX, i1), Rotate(bY, i2));
      var i := Compose(i1, Inverse(i2, p), p);
      RotateCompose(bY, i2, Inverse(i2, p));
      RotateZero(bY);
      RotateCompose(bX, i1, Inverse(i2, p));
      assert Rotate(bX, i) == bY;
    }
  }

  /** The representative is its own representative. */
  lemma MinRotationIdempotent(x: nat, p: nat)
    requires p >= 1 && x < Pow2(p)
    ensures MinRotation(MinRotation(x, p), p) == MinRotation(x, p)
  {
    var b := ToBits(x, p);
    ValueOfToBits(x, p);
    MinRotationIsLeast(x, p);
    var i :| 0 <= i < p && MinRotation(x, p) == Value(Rotate(b, i));
    MinRotationOfRotation(b, i);
  }

  /** The number of y < n with has(y): the next free code of an ascending
      scan that hands out codes to the y with has(y). */
  function CountBelow(n: nat, has: nat -> bool): (c: nat)
    ensures c <= n
  {
    if n == 0 then 0 else CountBelow(n - 1, has) + (if has(n - 1) then 1 else 0)
  }

  /** Every y with has(y) is counted by every later prefix. */
  lemma {:induction false} CountBelowGrows(a: nat, c: nat, has: nat -> bool)
    requires a < c && has(a)
    ensures CountBelow(a, has) < CountBelow(c, has)
  {
    if a < c - 1 {
      CountBelowGrows(a, c - 1, has);
    }
  }

  /** The number of rotation classes whose representative is below n. */
  function ClassesBelow(n: nat, p: nat): nat
    requires p >= 1
  {
    CountBelow(n, (y: nat) => MinRotation(y, p) == y)
  }

  lemma ClassesBelowGrows(a: nat, c: nat, p: nat)
    requires p >= 1 && a < c && MinRotation(a, p) == a
    ensures ClassesBelow(a, p) < ClassesBelow(c, p)
  {
    CountBelowGrows(a, c, (y: nat) => MinRotation(y, p) == y);
  }

  /** 'ri': scanning the patterns in ascending order, each rotation class gets
      the next free code when it is first met, which is at its representative. */
  function RiCode(x: nat, p: nat): (c: nat)
    requires p >= 1
    ensures c <= MinRotation(x, p)
  {
    ClassesBelow(MinRotation(x, p), p)
  }

  /** 'ri' gives two P-bit patterns the same code iff they are rotations of
      each other. */
  lemma RiCodeClasses(x: nat, y: nat, p: nat)
    requires p >= 1 && x < Pow2(p) && y < Pow2(p)
    ensures RiCode(x, p) == RiCode(y, p) <==> IsRotationOf(y, x, p)
  {
    SameRotationClass(x, y, p);
    var mx := MinRotation(x, p);
    var my := MinRotation(y, p);
    MinRotationBounds(x, p);
    MinRotationBounds(y, p);
    MinRotationIdempotent(x, p);
    MinRotationIdempotent(y, p);
    if mx < my {
      ClassesBelowGrows(mx, my, p);
    } else if my < mx {
      ClassesBelowGrows(my, mx, p);
    }
  }

  /** 'ri' codes are below the number of rotation classes. */
  lemma RiCodeRange(x: nat, p: nat)
    requires p >= 1 && x < Pow2(p)
    ensures RiCode(x, p) < ClassesBelow(Pow2(p), p)
  {
    MinRotationBounds(x, p);
    MinRotationIdempotent(x, p);
    ClassesBelowGrows(MinRotation(x, p), Pow2(p), p);
  }

  // ---------------------------------------------------------------------------
  // Transitions, uniform patterns and the 'u2' and 'riu2' mappings

  /** The number of positions at which a and c differ (popcount of a xor c). */
  function Mismatches(a: seq<bool>, c: seq<bool>): (m: nat)
    requires |a| == |c|
    ensures m <= |a|
    ensures m == 0 <==> a == c
  {
    if a == [] then 0 else (if a[0] != c[0] then 1 else 0) + Mismatches(a[1..], c[1..])
  }

  lemma {:induction false} MismatchesAppend(a1: seq<bool>, a2: seq<bool>, c1: seq<bool>, c2: seq<bool>)
    requires |a1| == |c1| && |a2| == |c2|
    ensures Mismatches(a1 + a2, c1 + c2) == Mismatches(a1, c1) + Mismatches(a2, c2)
  {
    if a1 == [] {
      assert a1 + a2 == a2 && c1 + c2 == c2;
    } else {
      assert (a1 + a2)[1..] == a1[1..] + a2;
      assert (c1 + c2)[1..] == c1[1..] + c2;
      MismatchesAppend(a1[1..], a2, c1[1..], c2);
    }
  }

  /** The number of circular 0/1 changes between neighbouring bits: the
      popcount of x xor rotl(x). There is none exactly when rotating leaves
      the pattern as it is. */
  function Transitions(b: seq<bool>): (t: nat)
    requires |b| > 0
    ensures t <= |b|
    ensures t == 0 <==> RotL(b) == b
  {
    Mismatches(b, RotL(b))
  }

  lemma RotLMismatches(a: seq<bool>, c: seq<bool>)
    requires |a| == |c| > 0
    ensures Mismatches(RotL(a), RotL(c)) == Mismatches(a, c)
  {
    var n := |a|;
    MismatchesAppend([a[n - 1]], a[..n - 1], [c[n - 1]], c[..n - 1]);
    MismatchesAppend(a[..n - 1], [a[n - 1]], c[..n - 1], [c[n - 1]]);
    assert a[..n - 1] + [a[n - 1]] == a;
    assert c[..n - 1] + [c[n - 1]] == c;
  }

  lemma {:induction false} RotateKeepsCounts(b: seq<bool>, j: nat)
    requires 0 < |b| && j <= |b|
    ensures Transitions(Rotate(b, j)) == Transitions(b)
    ensures Ones(Rotate(b, j)) == Ones(b)
  {
    if j == 0 {
      RotateZero(b);
    } else {
      RotateKeepsCounts(b, j - 1);
      var c := Rotate(b, j - 1);
      RotateStep(b, j - 1);
      RotLMismatches(c, RotL(c));
      var n := |c|;
      OnesAppend([c[n - 1]], c[..n - 1]);
      OnesAppend(c[..n - 1], [c[n - 1]]);
      assert c[..n - 1] + [c[n - 1]] == c;
    }
  }

  /** A uniform pattern has at most two circular transitions. */
  predicate IsUniform(x: nat, p: nat)
    requires p >= 1
  {
    Transitions(ToBits(x, p)) <= 2
  }

  /** Uniformity and the number of set bits are the same for every rotation. */
  lemma UniformRotation(x: nat, y: nat, p: nat)
    requires p >= 1 && IsRotationOf(y, x, p)
    ensures IsUniform(y, p) == IsUniform(x, p)
    ensures Ones(ToBits(y, p)) == Ones(ToBits(x, p))
  {
    var b := ToBits(x, p);
    var i :| 0 <= i < p && y == Value(Rotate(b, i));
    ToBitsOfValue(Rotate(b, i));
    RotateKeepsCounts(b, i);
  }

  /** The number of uniform patterns below n. */
  function UniformBelow(n: nat, p: nat): nat
    requires p >= 1
  {
    CountBelow(n, (y: nat) => IsUniform(y, p))
  }

  lemma UniformBelowStep(i: nat, p: nat)
    requires p >= 1
    ensures UniformBelow(i + 1, p) == UniformBelow(i, p) + (if IsUniform(i, p) then 1 else 0)
  {
  }

  /** The code shared by every non-uniform pattern under 'u2'. */
  function U2Other(p: nat): nat
  {
    p * (p - 1) + 2
  }

  /** 'u2': scanning in ascending order, uniform patterns take consecutive codes
      0, 1, 2, ...; every other pattern takes P(P-1)+2. */
  function U2Code(x: nat, p: nat): (c: nat)
    requires p >= 1
    ensures IsUniform(x, p) ==> c <= x
    ensures !IsUniform(x, p) ==> c == U2Other(p)
  {
    if IsUniform(x, p) then UniformBelow(x, p) else U2Other(p)
  }

  /** 'u2' keeps the order of the uniform patterns, so no two of them share a code. */
  lemma U2CodeOrdered(x: nat, y: nat, p: nat)
    requires p >= 1 && x < y && IsUniform(x, p) && IsUniform(y, p)
    ensures U2Code(x, p) < U2Code(y, p)
  {
    CountBelowGrows(x, y, (z: nat) => IsUniform(z, p));
  }

  /** 'riu2': a uniform pattern maps to its number of set bits, any other to
      P+1, so the codes lie in 0..P+1 with P+1 exactly for the non-uniform
      patterns. */
  function Riu2Code(x: nat, p: nat): (c: nat)
    requires p >= 1
    ensures c <= p + 1
    ensures c == p + 1 <==> !IsUniform(x, p)
  {
    if IsUniform(x, p) then Ones(ToBits(x, p)) else p + 1
  }

  /** 'riu2' gives all rotations of a pattern the same code. */
  lemma Riu2CodeRotation(x: nat, y: nat, p: nat)
    requires p >= 1 && IsRotationOf(y, x, p)
    ensures Riu2Code(y, p) == Riu2Code(x, p)
  {
    UniformRotation(x, y, p);
  }

  lemma {:induction false} AllClear(n: nat)
    ensures ToBits(0, n) == seq(n, _ => false)
    ensures n > 0 ==> Transitions(ToBits(0, n)) == 0
  {
    if n > 0 {
      AllClear(n - 1);
      var z := seq(n, _ => false);
      assert RotL(z) == z;
    }
  }

  /** 'riu2' maps a pattern to 0 iff no sample reached the centre value. */
  lemma Riu2ZeroIff(x: nat, p: nat)
    requires p >= 1 && x < Pow2(p)
    ensures Riu2Code(x, p) == 0 <==> x == 0
  {
    AllClear(p);
    ValueOfToBits(x, p);
  }

  // ---------------------------------------------------------------------------
  // The table, as a function and as the ascending scan that fills it

  /** The code a mapping assigns to the raw P-bit pattern x. */
  function Code(mapping: Mapping, x: nat, p: nat): (c: nat)
    requires p >= 1
    ensures mapping == NoMapping ==> c == x
    ensures mapping == U2 ==> (if IsUniform(x, p) then c <= x else c == U2Other(p))
    ensures mapping == Ri ==> c <= MinRotation(x, p)
    ensures mapping == Riu2 ==> c <= p + 1 && (c == p + 1 <==> !IsUniform(x, p))
  {
    match mapping
    case NoMapping => x
    case U2 => U2Code(x, p)
    case Ri => RiCode(x, p)
    case Riu2 => Riu2Code(x, p)
  }

  /** The least rotation of x, found as the table builder does: rotate left
      P-1 times, keeping the smallest value seen. */
  method LeastRotation(x: nat, p: nat) returns (rm: nat)
    requires p >= 1 && x < Pow2(p)
    ensures rm == MinRotation(x, p)
  {
    var b := ToBits(x, p);
    var r := b;
    rm := x;
    ValueOfToBits(x, p);
    RotateZero(b);
    var j := 0;
    while j < p - 1
      invariant 0 <= j <= p - 1
      invariant r == Rotate(b, j)
      invariant rm == MinRotationUpTo(b, j)
    {
      RotateStep(b, j);
      r := RotL(r);
      j := j + 1;
      var v := Value(r);
      if v < rm {
        rm := v;
      }
    }
  }

  method BuildIdentityTable(p: nat) returns (table: seq<nat>)
    requires p >= 1
    ensures |table| == Pow2(p)
    ensures forall x :: 0 <= x < Pow2(p) ==> table[x] == Code(NoMapping, x, p)
  {
    var codes := new nat[Pow2(p)];
    for i := 0 to codes.Length
      invariant forall x :: 0 <= x < i ==> codes[x] == x
    {
      codes[i] := i;
    }
    table := codes[..];
  }

  /** One step of the 'u2' scan: a uniform pattern takes the next free code,
      any other the shared code. */
  method UniformScanStep(i: nat, p: nat, index: nat) returns (code: nat, nextIndex: nat)
    requires p >= 1 && index == UniformBelow(i, p)
    ensures code == U2Code(i, p) && nextIndex == UniformBelow(i + 1, p)
  {
    UniformBelowStep(i, p);
    var numt := Transitions(ToBits(i, p));
    if numt <= 2 {
      code := index;
      nextIndex := index + 1;
    } else {
      code := U2Other(p);
      nextIndex := index;
    }
  }

  /** The values of f at 0, 1, ..., n-1, in that order. */
  function Tabulate(n: nat, f: nat -> nat): (s: seq<nat>)
    ensures |s| == n
  {
    if n == 0 then [] else Tabulate(n - 1, f) + [f(n - 1)]
  }

  lemma {:induction false} TabulateAt(n: nat, f: nat -> nat, x: nat)
    requires x < n
    ensures Tabulate(n, f)[x] == f(x)
  {
    var before := Tabulate(n - 1, f);
    assert Tabulate(n, f) == before + [f(n - 1)];
    if x < n - 1 {
      TabulateAt(n - 1, f, x);
      assert (before + [f(n - 1)])[x] == before[x];
    }
  }

  /** Extending the table of the first n values by f(n). */
  lemma TabulateNext(n: nat, f: nat -> nat, s: seq<nat>, v: nat)
    requires s == Tabulate(n, f) && v == f(n)
    ensures s + [v] == Tabulate(n + 1, f)
  {
  }

  /** The 'u2' mapping as a function of the pattern. */
  function U2Of(p: nat): nat -> nat
    requires p >= 1
  {
    x => U2Code(x, p)
  }

  /** The ascending 'u2' scan, filling the table with a running counter of
      the uniform patterns met so far. */
  method U2Scan(p: nat) returns (table: seq<nat>)
    requires p >= 1
    ensures table == Tabulate(Pow2(p), U2Of(p))
  {
    var n := Pow2(p);
    table := [];
    var index: nat := 0;
    for i := 0 to n
      invariant index == UniformBelow(i, p)
      invariant table == Tabulate(i, U2Of(p))
    {
      var code;
      code, index := UniformScanStep(i, p, index);
      TabulateNext(i, U2Of(p), table, code);
      table := table + [code];
    }
  }

  method BuildU2Table(p: nat) returns (table: seq<nat>)
    requires p >= 1
    ensures |table| == Pow2(p)
    ensures forall x :: 0 <= x < Pow2(p) ==> table[x] == Code(U2, x, p)
  {
    table := U2Scan(p);
    forall x | 0 <= x < Pow2(p) ensures table[x] == Code(U2, x, p) {
      TabulateAt(Pow2(p), U2Of(p), x);
    }
  }

  /** What the 'ri' builder's first-seen array holds for representative y
      once patterns 0..i-1 have been scanned. */
  ghost function FirstSeen(y: nat, i: nat, p: nat): int
    requires p >= 1
  {
    if y < i && MinRotation(y, p) == y then ClassesBelow(y, p) else -1
  }

  lemma FirstSeenStep(y: nat, i: nat, p: nat)
    requires p >= 1
    ensures FirstSeen(y, i + 1, p) ==
              if y == i && MinRotation(i, p) == i then ClassesBelow(i, p) else FirstSeen(y, i, p)
  {
  }

  lemma ClassesBelowStep(i: nat, p: nat)
    requires p >= 1
    ensures ClassesBelow(i + 1, p) == ClassesBelow(i, p) + (if MinRotation(i, p) == i then 1 else 0)
  {
  }

  /** Scanning pattern i: its representative was already seen iff it is
      smaller than i, and then it already holds i's code. */
  lemma RiScanStep(i: nat, p: nat)
    requires p >= 1 && i < Pow2(p)
    ensures MinRotation(i, p) <= i && MinRotation(i, p) < Pow2(p)
    ensures FirstSeen(MinRotation(i, p), i, p) < 0 <==> MinRotation(i, p) == i
    ensures MinRotation(i, p) < i ==> FirstSeen(MinRotation(i, p), i, p) == RiCode(i, p)
    ensures MinRotation(i, p) == i ==> ClassesBelow(i, p) == RiCode(i, p)
  {
    MinRotationBounds(i, p);
    MinRotationIdempotent(i, p);
  }

  /** One step of the 'ri' scan: pattern i gets the code of its class, and
      when it is the first member met (its representative) the class is
      recorded with the next free code. */
  method ScanPattern(first: array<int>, i: nat, p: nat, newMax: nat) returns (code: nat, nextMax: nat)
    requires p >= 1 && i < Pow2(p) == first.Length
    requires newMax == ClassesBelow(i, p)
    requires forall y :: 0 <= y < first.Length ==> first[y] == FirstSeen(y, i, p)
    modifies first
    ensures code == RiCode(i, p)
    ensures nextMax == ClassesBelow(i + 1, p)
    ensures forall y :: 0 <= y < first.Length ==> first[y] == FirstSeen(y, i + 1, p)
  {
    var rm := LeastRotation(i, p);
    RiScanStep(i, p);
    ClassesBelowStep(i, p);
    ghost var before := first[..];
    if first[rm] < 0 {
      code := newMax;
      first[rm] := newMax;
      nextMax := newMax + 1;
    } else {
      code := first[rm];
      nextMax := newMax;
    }
    forall y | 0 <= y < first.Length ensures first[y] == FirstSeen(y, i + 1, p) {
      FirstSeenStep(y, i, p);
      if y != rm {
        assert first[y] == before[y];
      }
    }
  }

  method BuildRiTable(p: nat) returns (table: seq<nat>)
    requires p >= 1
    ensures |table| == Pow2(p)
    ensures forall x :: 0 <= x < Pow2(p) ==> table[x] == Code(Ri, x, p)
  {
    var n := Pow2(p);
    var first := new int[n](_ => -1);
    var codes := new nat[n];
    var newMax: nat := 0;
    for i := 0 to n
      invariant newMax == ClassesBelow(i, p)
      invariant forall y :: 0 <= y < n ==> first[y] == FirstSeen(y, i, p)
      invariant forall x :: 0 <= x < i ==> codes[x] == RiCode(x, p)
    {
      codes[i], newMax := ScanPattern(first, i, p, newMax);
    }
    table := codes[..];
  }

  method BuildRiu2Table(p: nat) returns (table: seq<nat>)
    requires p >= 1
    ensures |table| == Pow2(p)
    ensures forall x :: 0 <= x < Pow2(p) ==> table[x] == Code(Riu2, x, p)
  {
    var codes := new nat[Pow2(p)];
    for i := 0 to codes.Length
      invariant forall x :: 0 <= x < i ==> codes[x] == Riu2Code(x, p)
    {
      var b := ToBits(i, p);
      if Transitions(b) <= 2 {
        codes[i] := Ones(b);
      } else {
        codes[i] := p + 1;
      }
    }
    table := codes[..];
  }

  /** The lookup table of a mapping for P samples, indexed by raw pattern. */
  method BuildTable(mapping: Mapping, p: nat) returns (table: seq<nat>)
    requires p >= 1
    ensures |table| == Pow2(p)
    ensures forall x :: 0 <= x < Pow2(p) ==> table[x] == Code(mapping, x, p)
  {
    match mapping
    case NoMapping => table := BuildIdentityTable(p);
    case U2 => table := BuildU2Table(p);
    case Ri => table := BuildRiTable(p);
    case Riu2 => table := BuildRiu2Table(p);
  }
}
