/** Groups, memberships and group overrides, and which override wins for an asset. */
module ExposureCatalog {
  import opened Common
  import opened ExposureModel

  type AssetId = int
  type GroupId = int
  type TenantId = int

  datatype Override = Override(value: string, updatedAt: nat)

  datatype Catalog = Catalog(
    groups: map<GroupId, TenantId>,
    members: set<(GroupId, AssetId)>,
    overrides: map<(GroupId, Field), Override>)

  /** Group `g` has an override of `f`, and `a` is a member. */
  ghost predicate Offers(c: Catalog, a: AssetId, f: Field, g: GroupId) {
    (g, a) in c.members && (g, f) in c.overrides
  }

  ghost predicate IsNewest(c: Catalog, a: AssetId, f: Field, g: GroupId) {
    && Offers(c, a, f, g)
    && forall h :: Offers(c, a, f, h) ==> c.overrides[(h, f)].updatedAt <= c.overrides[(g, f)].updatedAt
  }

  /** `winners` holds, for every field some group of `a` overrides, the value of a newest such override. */
  ghost predicate Resolves(c: Catalog, a: AssetId, winners: map<Field, string>) {
    && (forall f, g :: Offers(c, a, f, g) ==> f in winners)
    && (forall f :: f in winners ==> exists g :: IsNewest(c, a, f, g) && winners[f] == c.overrides[(g, f)].value)
  }

  /** Groups that set a field at one instant set it to one value. */
  ghost predicate TiesAgree(c: Catalog) {
    forall g, h, f ::
      ((g, f) in c.overrides && (h, f) in c.overrides && c.overrides[(g, f)].updatedAt == c.overrides[(h, f)].updatedAt)
      ==> c.overrides[(g, f)].value == c.overrides[(h, f)].value
  }

  /** The newest overrides `a` gets for a field all say the same. */
  ghost predicate NewestAgree(c: Catalog, a: AssetId) {
    forall f, g, h :: IsNewest(c, a, f, g) && IsNewest(c, a, f, h) ==>
      c.overrides[(g, f)].value == c.overrides[(h, f)].value
  }

  lemma LatestOf(c: Catalog, f: Field, candidates: set<GroupId>) returns (g: GroupId)
    requires candidates != {}
    requires forall h :: h in candidates ==> (h, f) in c.overrides
    ensures g in candidates
    ensures forall h :: h in candidates ==> c.overrides[(h, f)].updatedAt <= c.overrides[(g, f)].updatedAt
  {
    var first := Pick(candidates);
    var rest := candidates - {first};
    assert forall k :: k in candidates ==> k == first || k in rest;
    if rest == {} {
      g := first;
    } else {
      var later := LatestOf(c, f, rest);
      g := if c.overrides[(first, f)].updatedAt < c.overrides[(later, f)].updatedAt then later else first;
    }
  }

  lemma NewestExists(c: Catalog, a: AssetId, f: Field)
    requires exists g :: Offers(c, a, f, g)
    ensures exists g :: IsNewest(c, a, f, g)
  {
    var candidates := set m | m in c.members && m.1 == a && (m.0, f) in c.overrides :: m.0;
    var h :| Offers(c, a, f, h);
    assert (h, a) in c.members && h in candidates;
    var g := LatestOf(c, f, candidates);
    forall h | Offers(c, a, f, h) ensures h in candidates {
      assert (h, a) in c.members;
    }
    assert IsNewest(c, a, f, g);
  }

  ghost function OverridesOf(c: Catalog, a: AssetId): (winners: map<Field, string>)
    ensures Resolves(c, a, winners)
  {
    map f: Field | exists g :: Offers(c, a, f, g) :: WinningValue(c, a, f)
  }

  ghost function WinningValue(c: Catalog, a: AssetId, f: Field): (value: string)
    requires exists g :: Offers(c, a, f, g)
    ensures exists g :: IsNewest(c, a, f, g) && value == c.overrides[(g, f)].value
  {
    NewestExists(c, a, f);
    var g :| IsNewest(c, a, f, g);
    c.overrides[(g, f)].value
  }

  /** What an asset's groups say does not depend on how it was found if and only if its newest
      overrides agree, field by field. */
  lemma ResolutionIsUniqueIff(c: Catalog, a: AssetId)
    ensures (forall winners, winners' :: Resolves(c, a, winners) && Resolves(c, a, winners') ==> winners == winners')
       <==> NewestAgree(c, a)
  {
    if NewestAgree(c, a) {
      forall winners, winners' | Resolves(c, a, winners) && Resolves(c, a, winners') ensures winners == winners' {
        AgreeingNewestResolveOnce(c, a, winners, winners');
      }
    } else {
      var f, g, h :| IsNewest(c, a, f, g) && IsNewest(c, a, f, h) &&
                     c.overrides[(g, f)].value != c.overrides[(h, f)].value;
      var winners := OverridesOf(c, a);
      var one, other := winners[f := c.overrides[(g, f)].value], winners[f := c.overrides[(h, f)].value];
      ChoosingResolves(c, a, f, g);
      ChoosingResolves(c, a, f, h);
      assert one[f] != other[f];
    }
  }

  lemma AgreeingNewestResolveOnce(c: Catalog, a: AssetId, winners: map<Field, string>, winners': map<Field, string>)
    requires NewestAgree(c, a) && Resolves(c, a, winners) && Resolves(c, a, winners')
    ensures winners == winners'
  {
    forall f | f in winners ensures f in winners' && winners[f] == winners'[f] {
      var g :| IsNewest(c, a, f, g) && winners[f] == c.overrides[(g, f)].value;
      var h :| IsNewest(c, a, f, h) && winners'[f] == c.overrides[(h, f)].value;
    }
    forall f | f in winners' ensures f in winners {
      var g :| IsNewest(c, a, f, g) && winners'[f] == c.overrides[(g, f)].value;
    }
  }

  /** Any newest override may be the one that is found. */
  lemma ChoosingResolves(c: Catalog, a: AssetId, f: Field, g: GroupId)
    requires IsNewest(c, a, f, g)
    ensures Resolves(c, a, OverridesOf(c, a)[f := c.overrides[(g, f)].value])
  {
    var winners := OverridesOf(c, a)[f := c.overrides[(g, f)].value];
    forall k | k in winners ensures exists h :: IsNewest(c, a, k, h) && winners[k] == c.overrides[(h, k)].value {
      if k == f {
        assert IsNewest(c, a, f, g) && winners[f] == c.overrides[(g, f)].value;
      } else {
        var h :| IsNewest(c, a, k, h) && OverridesOf(c, a)[k] == c.overrides[(h, k)].value;
      }
    }
  }

  /** Agreeing ties are enough. */
  lemma ResolutionIsUnique(c: Catalog, a: AssetId, winners: map<Field, string>, winners': map<Field, string>)
    requires TiesAgree(c) && Resolves(c, a, winners) && Resolves(c, a, winners')
    ensures winners == winners'
  {
    forall f, g, h | IsNewest(c, a, f, g) && IsNewest(c, a, f, h)
      ensures c.overrides[(g, f)].value == c.overrides[(h, f)].value
    {
      assert c.overrides[(g, f)].updatedAt == c.overrides[(h, f)].updatedAt;
    }
    AgreeingNewestResolveOnce(c, a, winners, winners');
  }

  /** The catalog says the same about `a` in both. */
  ghost predicate SameOffers(c: Catalog, c': Catalog, a: AssetId) {
    forall f, g :: && (Offers(c, a, f, g) <==> Offers(c', a, f, g))
                   && (Offers(c, a, f, g) ==> c.overrides[(g, f)] == c'.overrides[(g, f)])
  }

  lemma SameOffersSameOverrides(c: Catalog, c': Catalog, a: AssetId)
    requires SameOffers(c, c', a) && TiesAgree(c')
    ensures OverridesOf(c, a) == OverridesOf(c', a)
  {
    var winners := OverridesOf(c, a);
    forall f | f in winners ensures exists g :: IsNewest(c', a, f, g) && winners[f] == c'.overrides[(g, f)].value {
      var g :| IsNewest(c, a, f, g) && winners[f] == c.overrides[(g, f)].value;
      assert IsNewest(c', a, f, g);
    }
    ResolutionIsUnique(c', a, winners, OverridesOf(c', a));
  }

  // ---- The loop over the joined rows ----

  datatype OverrideRow = OverrideRow(field: Field, value: string, group: GroupId, updatedAt: nat)

  /** `rows` is the join of memberships and overrides for `a`, in whatever order the database returned it. */
  ghost predicate IsJoin(c: Catalog, a: AssetId, rows: seq<OverrideRow>) {
    && (forall r :: r in rows ==>
          Offers(c, a, r.field, r.group) && c.overrides[(r.group, r.field)] == Override(r.value, r.updatedAt))
    && (forall f, g :: Offers(c, a, f, g) ==>
          OverrideRow(f, c.overrides[(g, f)].value, g, c.overrides[(g, f)].updatedAt) in rows)
  }

  /** Row `i` is the first of the newest rows for field `f` among the first `n`. */
  ghost predicate FirstNewest(rows: seq<OverrideRow>, n: nat, f: Field, i: int)
    requires n <= |rows|
  {
    && 0 <= i < n && rows[i].field == f
    && forall j :: 0 <= j < n && rows[j].field == f ==>
         rows[j].updatedAt <= rows[i].updatedAt && (j < i ==> rows[j].updatedAt < rows[i].updatedAt)
  }

  type Winner = (string, GroupId, nat)

  function Entry(r: OverrideRow): Winner {
    (r.value, r.group, r.updatedAt)
  }

  ghost predicate WinsAt(rows: seq<OverrideRow>, n: nat, f: Field, w: Winner)
    requires n <= |rows|
  {
    exists i :: FirstNewest(rows, n, f, i) && w == (rows[i].value, rows[i].group, rows[i].updatedAt)
  }

  /** One more row leaves the winner of `f` alone unless it is the first of `f` or strictly newer. */
  lemma WinnerStep(rows: seq<OverrideRow>, n: nat, f: Field, w: Winner)
    requires n < |rows| && WinsAt(rows, n, f, w)
    ensures WinsAt(rows, n + 1, f, if rows[n].field == f && rows[n].updatedAt > w.2 then Entry(rows[n]) else w)
  {
    var i :| FirstNewest(rows, n, f, i) && w == Entry(rows[i]);
    if rows[n].field == f && rows[n].updatedAt > w.2 {
      assert FirstNewest(rows, n + 1, f, n);
    } else {
      assert FirstNewest(rows, n + 1, f, i);
    }
  }

  /** Every field among the first `n` rows has an entry. */
  ghost predicate Covers(best: map<Field, Winner>, rows: seq<OverrideRow>, n: nat)
    requires n <= |rows|
  {
    forall i :: 0 <= i < n ==> rows[i].field in best
  }

  ghost predicate AllWin(best: map<Field, Winner>, rows: seq<OverrideRow>, n: nat)
    requires n <= |rows|
  {
    forall f :: f in best ==> WinsAt(rows, n, f, best[f])
  }

  /** What the loop does with a row. */
  function Considered(best: map<Field, Winner>, r: OverrideRow): map<Field, Winner> {
    if r.field !in best || r.updatedAt > best[r.field].2 then best[r.field := Entry(r)] else best
  }

  /** It keeps the entry of every field the winner, its own field's included. */
  lemma ConsideredWins(best: map<Field, Winner>, rows: seq<OverrideRow>, n: nat, f: Field)
    requires n < |rows| && Covers(best, rows, n) && (f in best ==> WinsAt(rows, n, f, best[f]))
    requires f in Considered(best, rows[n])
    ensures WinsAt(rows, n + 1, f, Considered(best, rows[n])[f])
  {
    if f in best {
      WinnerStep(rows, n, f, best[f]);
    } else {
      assert FirstNewest(rows, n + 1, f, n);
    }
  }

  lemma AllStillWin(best: map<Field, Winner>, rows: seq<OverrideRow>, n: nat)
    requires n < |rows| && Covers(best, rows, n) && AllWin(best, rows, n)
    ensures Covers(Considered(best, rows[n]), rows, n + 1) && AllWin(Considered(best, rows[n]), rows, n + 1)
  {
    forall f | f in Considered(best, rows[n]) ensures WinsAt(rows, n + 1, f, Considered(best, rows[n])[f]) {
      ConsideredWins(best, rows, n, f);
    }
  }

  /** Every field with a row gets the value, group and time of the first among its newest rows. */
  method ResolveGroupOverrides(rows: seq<OverrideRow>) returns (best: map<Field, Winner>)
    ensures forall r :: r in rows ==> r.field in best
    ensures forall f :: f in best ==> WinsAt(rows, |rows|, f, best[f])
  {
    best := map[];
    for n := 0 to |rows|
      invariant Covers(best, rows, n) && AllWin(best, rows, n)
    {
      var r := rows[n];
      AllStillWin(best, rows, n);
      if r.field !in best {
        best := best[r.field := Entry(r)];
      } else if r.updatedAt > best[r.field].2 {
        best := best[r.field := Entry(r)];
      }
    }
  }

  /** What the loop finds over any listing of the join is a resolution; when ties
      agree every order of the rows gives the same one. */
  lemma LoopResolves(c: Catalog, a: AssetId, rows: seq<OverrideRow>, best: map<Field, Winner>)
    requires IsJoin(c, a, rows)
    requires forall r :: r in rows ==> r.field in best
    requires forall f :: f in best ==> WinsAt(rows, |rows|, f, best[f])
    ensures Resolves(c, a, ValuesOf(best))
    ensures TiesAgree(c) ==> ValuesOf(best) == OverridesOf(c, a)
  {
    var winners := ValuesOf(best);
    forall f | f in winners ensures exists g :: IsNewest(c, a, f, g) && winners[f] == c.overrides[(g, f)].value {
      var i :| FirstNewest(rows, |rows|, f, i) && best[f] == Entry(rows[i]);
      var g := rows[i].group;
      assert rows[i] in rows;
      forall h | Offers(c, a, f, h) ensures c.overrides[(h, f)].updatedAt <= c.overrides[(g, f)].updatedAt {
        var r := OverrideRow(f, c.overrides[(h, f)].value, h, c.overrides[(h, f)].updatedAt);
        var j :| 0 <= j < |rows| && rows[j] == r;
      }
      assert IsNewest(c, a, f, g);
    }
    if TiesAgree(c) {
      ResolutionIsUnique(c, a, winners, OverridesOf(c, a));
    }
  }

  function ValuesOf(best: map<Field, Winner>): map<Field, string> {
    map f | f in best :: best[f].0
  }
}
