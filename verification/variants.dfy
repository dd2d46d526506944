/** One experimental arm: its ground truth, the Gamma parameters derived from
    it, and the data it accumulates as visitors arrive (class `Variant`),
    together with the name-keyed view the methodologies hold of the arms. */
module Variants {
  import opened Results
  import opened Seqs

  /** Ground-truth triple of one arm as the scenario configuration gives it. */
  datatype VariantConfig = VariantConfig(
    name: string,
    trueConvRate: real,
    trueAov: real,
    aovStdDev: real)

  /** The only way construction fails: a float division by zero. */
  datatype InitError = ZeroDivision

  datatype Variant = Variant(
    name: string,
    trueConvRate: real,
    trueAov: real,
    gammaShape: real,
    gammaScale: real,
    visitors: nat,
    conversions: nat,
    conversionRevenues: seq<real>)

  /** The accumulated-data invariant: never more conversions than visitors,
      one recorded order value per conversion, every order value positive. */
  predicate Wf(v: Variant) {
    && v.conversions <= v.visitors
    && |v.conversionRevenues| == v.conversions
    && forall i :: 0 <= i < |v.conversionRevenues| ==> v.conversionRevenues[i] > 0.0
  }

  predicate AllWf(vs: seq<Variant>) {
    forall i :: 0 <= i < |vs| ==> Wf(vs[i])
  }

  /** Construction: the Gamma scale is variance / mean and the shape is
      mean / scale, so the order-value distribution has the configured mean
      and variance. Either division raises when its divisor is zero. */
  function NewVariant(c: VariantConfig): (r: Result<Variant, InitError>)
    ensures r.Failure? <==> c.trueAov == 0.0 || c.aovStdDev == 0.0
    ensures r.Success? ==>
      && r.value.name == c.name
      && r.value.trueConvRate == c.trueConvRate
      && r.value.trueAov == c.trueAov
      && r.value.visitors == 0
      && r.value.conversions == 0
      && r.value.conversionRevenues == []
    ensures r.Success? ==> r.value.gammaShape * r.value.gammaScale == c.trueAov
    ensures r.Success? ==>
      r.value.gammaShape * r.value.gammaScale * r.value.gammaScale == c.aovStdDev * c.aovStdDev
    ensures r.Success? && c.trueAov > 0.0 ==> r.value.gammaShape > 0.0 && r.value.gammaScale > 0.0
    ensures r.Success? ==> Wf(r.value)
  {
    var variance := c.aovStdDev * c.aovStdDev;
    if c.trueAov == 0.0 then Failure(ZeroDivision)
    else
      var scale := variance / c.trueAov;
      assert scale * c.trueAov == variance;
      if scale == 0.0 then
        assert variance == 0.0 * c.trueAov == 0.0;
        ProductZero(c.aovStdDev, c.aovStdDev);
        Failure(ZeroDivision)
      else
        var shape := c.trueAov / scale;
        assert shape * scale == c.trueAov;
        assert shape * scale * scale == c.trueAov * scale == variance;
        Success(Variant(c.name, c.trueConvRate, c.trueAov, shape, scale, 0, 0, []))
  }

  lemma ProductZero(a: real, b: real)
    requires a * b == 0.0
    ensures a == 0.0 || b == 0.0
  {
  }

  /** What the two random draws of `add_visitors(n)` can produce: a binomial
      count of at most `n` conversions, and one positive Gamma order value per
      conversion. The count is the length of `drawn`. */
  predicate ArrivalDraw(n: nat, drawn: seq<real>) {
    && |drawn| <= n
    && forall i :: 0 <= i < |drawn| ==> drawn[i] > 0.0
  }

  /** `add_visitors(n)` with the drawn order values `drawn`: the counters
      grow by `n` and by the number of conversions drawn, the new values are
      appended after the existing history, and nothing else changes. */
  function AddVisitors(v: Variant, n: nat, drawn: seq<real>): (r: Variant)
    ensures r.visitors == v.visitors + n
    ensures r.conversions == v.conversions + |drawn|
    ensures |r.conversionRevenues| == |v.conversionRevenues| + |drawn|
    ensures r.conversionRevenues[..|v.conversionRevenues|] == v.conversionRevenues
    ensures r.conversionRevenues[|v.conversionRevenues|..] == drawn
    ensures r.name == v.name && r.trueConvRate == v.trueConvRate && r.trueAov == v.trueAov
    ensures r.gammaShape == v.gammaShape && r.gammaScale == v.gammaScale
  {
    v.(visitors := v.visitors + n,
       conversions := v.conversions + |drawn|,
       conversionRevenues := v.conversionRevenues + drawn)
  }

  /** Growth by a draw from the support of the two distributions keeps the
      accumulated-data invariant. */
  lemma AddVisitorsKeepsWf(v: Variant, n: nat, drawn: seq<real>)
    requires Wf(v)
    requires ArrivalDraw(n, drawn)
    ensures Wf(AddVisitors(v, n, drawn))
  {
    var r := AddVisitors(v, n, drawn);
    forall i | 0 <= i < |r.conversionRevenues|
      ensures r.conversionRevenues[i] > 0.0
    {
      if i < |v.conversionRevenues| {
        assert r.conversionRevenues[i] == r.conversionRevenues[..|v.conversionRevenues|][i];
      } else {
        assert r.conversionRevenues[i] == r.conversionRevenues[|v.conversionRevenues|..][i - |v.conversionRevenues|];
      }
    }
  }

  // The name-keyed view `{v.name: v for v in variants}`.

  predicate DistinctNames(d: seq<Variant>) {
    forall i, j :: 0 <= i < j < |d| ==> d[i].name != d[j].name
  }

  /** Position of the entry named `name`, if any (the first such entry). */
  function Find(d: seq<Variant>, name: string): (r: Option<nat>)
    ensures r.Some? ==> r.value < |d| && d[r.value].name == name
    ensures r.Some? ==> forall j :: 0 <= j < r.value ==> d[j].name != name
    ensures r.None? <==> forall j :: 0 <= j < |d| ==> d[j].name != name
    decreases |d|
  {
    if |d| == 0 then None
    else if d[0].name == name then Some(0)
    else match Find(d[1..], name)
      case None => None
      case Some(i) => Some(i + 1)
  }

  /** Dictionary lookup `variants.get(name)`. */
  function Lookup(d: seq<Variant>, name: string): (r: Option<Variant>)
    ensures r.Some? <==> exists j :: 0 <= j < |d| && d[j].name == name
    ensures r.Some? ==> r.value.name == name && r.value in d
  {
    match Find(d, name)
    case None => None
    case Some(i) => Some(d[i])
  }

  /** The value a dict built from the arms `vs` in order holds for `name`:
      the last arm carrying that name, if any. */
  function LastNamed(vs: seq<Variant>, name: string): (r: Option<Variant>)
    ensures r.Some? <==> exists j :: 0 <= j < |vs| && vs[j].name == name
    ensures r.Some? ==> r.value.name == name && r.value in vs
    decreases |vs|
  {
    if |vs| == 0 then None
    else if vs[|vs| - 1].name == name then Some(vs[|vs| - 1])
    else
      var r := LastNamed(vs[..|vs| - 1], name);
      assert forall j :: 0 <= j < |vs| - 1 ==> vs[..|vs| - 1][j] == vs[j];
      r
  }

  /** A Python dict built from the arms in order (`{v.name: v for v in vs}`):
      its keys are the arms' names, each once, a name keeps the position of
      its first occurrence, and it maps to the last arm carrying it. Every
      entry is one of the arms, so it inherits their invariant, and a
      non-empty arm list gives a non-empty dict. */
  function DictOf(vs: seq<Variant>): (d: seq<Variant>)
    ensures DistinctNames(d)
    ensures |d| <= |vs|
    ensures forall name :: Lookup(d, name) == LastNamed(vs, name)
    ensures AllWf(vs) ==> AllWf(d)
    ensures |vs| > 0 ==> |d| > 0
    ensures forall i {:trigger Find(vs, d[i].name)} :: 0 <= i < |d| ==> Find(vs, d[i].name).Some?
    ensures forall i, j {:trigger Find(vs, d[i].name), Find(vs, d[j].name)} :: 0 <= i < j < |d| ==> Find(vs, d[i].name).value < Find(vs, d[j].name).value
    decreases |vs|
  {
    if |vs| == 0 then []
    else
      var init := vs[..|vs| - 1];
      var last := vs[|vs| - 1];
      var d := Insert(DictOf(init), last);
      EntriesAreArms(vs, d);
      SplitLast(vs);
      KeysFollowFirstOccurrence(init, last, DictOf(init), d);
      d
  }

  /** Every entry of a dict that agrees with the arms on every lookup is one
      of the arms. */
  lemma EntriesAreArms(vs: seq<Variant>, d: seq<Variant>)
    requires DistinctNames(d)
    requires forall name :: Lookup(d, name) == LastNamed(vs, name)
    ensures forall i :: 0 <= i < |d| ==> d[i] in vs
  {
    forall i | 0 <= i < |d|
      ensures d[i] in vs
    {
      EntryIsFound(d, i);
    }
  }

  /** The key-order step of `DictOf`: if `d0` lists the names of `init` by
      first occurrence, then assigning the arm `last` into it lists the
      names of `init + [last]` by first occurrence. */
  lemma KeysFollowFirstOccurrence(init: seq<Variant>, last: Variant, d0: seq<Variant>, d: seq<Variant>)
    requires DistinctNames(d0)
    requires forall name :: Lookup(d0, name) == LastNamed(init, name)
    requires forall i {:trigger Find(init, d0[i].name)} :: 0 <= i < |d0| ==> Find(init, d0[i].name).Some?
    requires forall i, j {:trigger Find(init, d0[i].name), Find(init, d0[j].name)} :: 0 <= i < j < |d0| ==> Find(init, d0[i].name).value < Find(init, d0[j].name).value
    requires d == Insert(d0, last)
    ensures forall i {:trigger Find(init + [last], d[i].name)} :: 0 <= i < |d| ==> Find(init + [last], d[i].name).Some?
    ensures forall i, j {:trigger Find(init + [last], d[i].name), Find(init + [last], d[j].name)} :: 0 <= i < j < |d| ==> Find(init + [last], d[i].name).value < Find(init + [last], d[j].name).value
  {
    var vs := init + [last];
    forall i | 0 <= i < |d0|
      ensures Find(vs, d0[i].name) == Find(init, d0[i].name)
    {
      FindExtends(init, last, d0[i].name);
    }
    if |d| == |d0| + 1 {
      assert LastNamed(init, last.name).None?;
      FindIsFirst(vs, last.name, |init|);
    }
    forall i | 0 <= i < |d|
      ensures Find(vs, d[i].name).Some?
    {
      if i < |d0| {
        assert d[i].name == d0[i].name;
      }
    }
    forall i, j | 0 <= i < j < |d|
      ensures Find(vs, d[i].name).value < Find(vs, d[j].name).value
    {
      assert d[i].name == d0[i].name;
      if j < |d0| {
        assert d[j].name == d0[j].name;
      }
    }
  }


  /** Appending an entry does not move a name that is already present. */
  lemma FindExtends(d: seq<Variant>, v: Variant, name: string)
    requires Find(d, name).Some?
    ensures Find(d + [v], name) == Find(d, name)
  {
    var k := Find(d, name).value;
    FindIsFirst(d + [v], name, k);
  }

  /** `Find` returns exactly the first position carrying the name. */
  lemma FindIsFirst(d: seq<Variant>, name: string, k: nat)
    requires k < |d| && d[k].name == name
    requires forall j :: 0 <= j < k ==> d[j].name != name
    ensures Find(d, name) == Some(k)
  {
  }

  /** Assignment `d[v.name] = v` on a dict: an existing key keeps its
      position and takes the new value, a new key goes last; every other
      key keeps its value. */
  function Insert(d0: seq<Variant>, v: Variant): (d: seq<Variant>)
    requires DistinctNames(d0)
    ensures DistinctNames(d)
    ensures |d0| <= |d| <= |d0| + 1
    ensures forall name :: Lookup(d, name) == if name == v.name then Some(v) else Lookup(d0, name)
    ensures forall i :: 0 <= i < |d0| ==> d[i].name == d0[i].name
    ensures |d| == |d0| + 1 ==> d[|d0|] == v
    ensures |d| == |d0| <==> Find(d0, v.name).Some?
  {
    match Find(d0, v.name)
    case None =>
      InsertNewKey(d0, v);
      d0 + [v]
    case Some(i) =>
      InsertExistingKey(d0, v, i);
      d0[i := v]
  }

  lemma InsertNewKey(d0: seq<Variant>, v: Variant)
    requires DistinctNames(d0)
    requires Find(d0, v.name).None?
    ensures DistinctNames(d0 + [v])
    ensures forall name :: Lookup(d0 + [v], name) == if name == v.name then Some(v) else Lookup(d0, name)
  {
    var d := d0 + [v];
    assert forall k :: 0 <= k < |d0| ==> d[k] == d0[k];
    forall name
      ensures Lookup(d, name) == if name == v.name then Some(v) else Lookup(d0, name)
    {
      if name == v.name {
        FindIsFirst(d, name, |d0|);
      } else if Find(d0, name).Some? {
        FindExtends(d0, v, name);
      } else {
        assert Find(d, name) == None;
      }
    }
  }

  lemma InsertExistingKey(d0: seq<Variant>, v: Variant, i: nat)
    requires DistinctNames(d0)
    requires Find(d0, v.name) == Some(i)
    ensures DistinctNames(d0[i := v])
    ensures forall name :: Lookup(d0[i := v], name) == if name == v.name then Some(v) else Lookup(d0, name)
  {
    var d := d0[i := v];
    assert forall k :: 0 <= k < |d0| ==> d[k].name == d0[k].name;
    forall name
      ensures Lookup(d, name) == if name == v.name then Some(v) else Lookup(d0, name)
    {
      SameNamesSameFind(d0, d, name);
    }
  }

  /** Two dicts with the same names at the same positions find every name
      at the same position. */
  lemma SameNamesSameFind(d0: seq<Variant>, d: seq<Variant>, name: string)
    requires |d| == |d0|
    requires forall k :: 0 <= k < |d0| ==> d[k].name == d0[k].name
    ensures Find(d, name) == Find(d0, name)
  {
    if Find(d0, name).Some? {
      FindIsFirst(d, name, Find(d0, name).value);
    }
  }

  /** When the arms' names are distinct the dictionary is the arm list itself,
      in the same order. */
  lemma {:induction false} DictOfDistinct(vs: seq<Variant>)
    requires DistinctNames(vs)
    ensures DictOf(vs) == vs
  {
    if |vs| > 0 {
      var init := vs[..|vs| - 1];
      DictOfDistinct(init);
      assert Find(init, vs[|vs| - 1].name).None?;
      assert Insert(init, vs[|vs| - 1]) == init + [vs[|vs| - 1]];
      assert init + [vs[|vs| - 1]] == vs;
    }
  }

  /** With distinct names, looking up an entry's name finds that entry. */
  lemma EntryIsFound(d: seq<Variant>, i: nat)
    requires DistinctNames(d) && i < |d|
    ensures Lookup(d, d[i].name) == Some(d[i])
  {
    assert Find(d, d[i].name) == Some(i);
  }
}
