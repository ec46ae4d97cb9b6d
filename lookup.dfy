/** The bookkeeping for one pass of one pattern class: the live matches,
    which of them claim each position, and the metadata each has reported. */
module Lookup {
  import opened Flags
  import opened Grid

  predicate Distinct<M(==)>(s: seq<M>) {
    forall i, j :: 0 <= i < j < |s| ==> s[i] != s[j]
  }

  /** `list.remove(x)` with its ValueError ignored: the first x is dropped,
      and nothing happens when there is none. */
  function RemoveFirst<M(==)>(s: seq<M>, x: M): (r: seq<M>)
    ensures |r| == if x in s then |s| - 1 else |s|
    ensures x !in s ==> r == s
  {
    if s == [] then []
    else if s[0] == x then s[1..]
    else [s[0]] + RemoveFirst(s[1..], x)
  }

  /** Removing the first x takes exactly one x out of the list, and
      nothing else. */
  lemma {:induction false} RemoveFirstCounts<M>(s: seq<M>, x: M)
    ensures multiset(RemoveFirst(s, x)) == multiset(s) - multiset{x}
  {
    if s != [] {
      assert s == [s[0]] + s[1..];
      if s[0] != x {
        RemoveFirstCounts(s[1..], x);
      }
    }
  }

  /** `s` without the elements of `e`, in order. */
  function Without<M(==)>(s: seq<M>, e: set<M>): (r: seq<M>)
    ensures forall y :: y in r ==> y in s && y !in e
    ensures forall y :: y in s && y !in e ==> y in r
    ensures |r| <= |s|
  {
    if s == [] then []
    else if s[0] in e then Without(s[1..], e)
    else [s[0]] + Without(s[1..], e)
  }

  /** In a list without repetitions, removing the first x removes every x. */
  lemma {:induction false} RemoveFirstOfDistinct<M>(s: seq<M>, x: M)
    requires Distinct(s)
    ensures RemoveFirst(s, x) == Without(s, {x})
  {
    if s != [] {
      assert Distinct(s[1..]) by {
        forall i, j | 0 <= i < j < |s[1..]| ensures s[1..][i] != s[1..][j] {
          assert s[1..][i] == s[i + 1] && s[1..][j] == s[j + 1];
        }
      }
      RemoveFirstOfDistinct(s[1..], x);
      if s[0] == x {
        assert x !in s[1..] by {
          forall j | 0 <= j < |s[1..]| ensures s[1..][j] != x {
            assert s[1..][j] == s[j + 1];
          }
        }
        WithoutNothing(s[1..], {x});
      }
    }
  }

  /** Removing elements none of which occurs changes nothing. */
  lemma {:induction false} WithoutNothing<M>(s: seq<M>, e: set<M>)
    requires forall y :: y in s ==> y !in e
    ensures Without(s, e) == s
  {
    if s != [] {
      assert forall y :: y in s[1..] ==> y in s;
      WithoutNothing(s[1..], e);
    }
  }

  /** Removing every element leaves nothing. */
  lemma {:induction false} WithoutAll<M>(s: seq<M>, e: set<M>)
    requires forall y :: y in s ==> y in e
    ensures Without(s, e) == []
  {
    if s != [] {
      assert forall y :: y in s[1..] ==> y in s;
      WithoutAll(s[1..], e);
    }
  }

  /** Removing `a` and then `b` is removing both at once. */
  lemma {:induction false} WithoutTwice<M>(s: seq<M>, a: set<M>, b: set<M>)
    ensures Without(Without(s, a), b) == Without(s, a + b)
  {
    if s != [] {
      WithoutTwice(s[1..], a, b);
    }
  }

  /** Removing elements keeps a list free of repetitions. */
  lemma {:induction false} WithoutKeepsDistinct<M>(s: seq<M>, e: set<M>)
    requires Distinct(s)
    ensures Distinct(Without(s, e))
  {
    if s != [] {
      assert Distinct(s[1..]) by {
        forall i, j | 0 <= i < j < |s[1..]| ensures s[1..][i] != s[1..][j] {
          assert s[1..][i] == s[i + 1] && s[1..][j] == s[j + 1];
        }
      }
      WithoutKeepsDistinct(s[1..], e);
      var t := Without(s[1..], e);
      if s[0] !in e {
        assert s[0] !in t by {
          forall j | 0 <= j < |s[1..]| ensures s[1..][j] != s[0] {
            assert s[1..][j] == s[j + 1];
          }
        }
        assert Distinct([s[0]] + t) by {
          forall i, j | 0 <= i < j < |[s[0]] + t| ensures ([s[0]] + t)[i] != ([s[0]] + t)[j] {
            if i == 0 {
              assert ([s[0]] + t)[j] == t[j - 1];
            } else {
              assert ([s[0]] + t)[i] == t[i - 1] && ([s[0]] + t)[j] == t[j - 1];
            }
          }
        }
      }
    }
  }

  /** The matches listed at p in an occupants table, none when p is
      missing (the table is a defaultdict of lists). */
  function OccAt<M>(occ: map<Pos, seq<M>>, p: Pos): seq<M> {
    if p in occ then occ[p] else []
  }

  /** The metadata recorded for x in a metadata table, empty when x is
      missing. */
  function MetaAt<M>(mm: map<M, map<Pos, Meta>>, x: M): map<Pos, Meta> {
    if x in mm then mm[x] else map[]
  }

  /** x reported M_OCCUPIED at p. */
  predicate ClaimsIn<M>(mm: map<M, map<Pos, Meta>>, x: M, p: Pos) {
    p in MetaAt(mm, x) && Has(MetaAt(mm, x)[p], M_OCCUPIED)
  }

  /** Metadata is kept only for listed matches. */
  ghost predicate MetaListed<M>(ms: seq<M>, mm: map<M, map<Pos, Meta>>) {
    forall x :: x in mm ==> x in ms
  }

  /** No position lists a match twice. */
  ghost predicate OccDistinct<M>(occ: map<Pos, seq<M>>) {
    forall p :: Distinct(OccAt(occ, p))
  }

  /** The occupants of a position are exactly the matches with metadata
      that claim it. */
  ghost predicate OccAgrees<M>(occ: map<Pos, seq<M>>, mm: map<M, map<Pos, Meta>>) {
    && (forall x, p :: x in OccAt(occ, p) ==> ClaimsIn(mm, x, p))
    && (forall x, p :: x in mm && ClaimsIn(mm, x, p) ==> x in OccAt(occ, p))
  }

  /** The three tables agree: a match is listed at most once, metadata is
      kept only for listed matches, and the occupants of a position are
      exactly the listed matches that claim it, each once. */
  ghost predicate Consistent<M>(ms: seq<M>, occ: map<Pos, seq<M>>, mm: map<M, map<Pos, Meta>>) {
    Distinct(ms) && MetaListed(ms, mm) && OccDistinct(occ) && OccAgrees(occ, mm)
  }

  /** Listing a new match keeps the tables consistent. */
  lemma AddMatchKeepsConsistent<M>(ms: seq<M>, occ: map<Pos, seq<M>>, mm: map<M, map<Pos, Meta>>, m: M)
    requires Consistent(ms, occ, mm) && m !in ms
    ensures Consistent(ms + [m], occ, mm)
  {
    assert forall i :: 0 <= i < |ms| ==> (ms + [m])[i] == ms[i];
  }

  /** Appending a match a list does not hold keeps it free of repetitions. */
  lemma AppendKeepsDistinct<M>(s: seq<M>, m: M)
    requires Distinct(s) && m !in s
    ensures Distinct(s + [m])
  {
    assert forall i :: 0 <= i < |s| ==> (s + [m])[i] == s[i];
  }

  /** Recording metadata for a listed match at a position it has not
      reported before, and listing it there when it claims it, keeps the
      tables consistent. */
  lemma AddMetaKeepsConsistent<M>(ms: seq<M>, occ: map<Pos, seq<M>>, mm: map<M, map<Pos, Meta>>,
                                  m: M, p: Pos, meta: Meta)
    requires Consistent(ms, occ, mm) && m in ms && p !in MetaAt(mm, m)
    ensures var occ' := if Has(meta, M_OCCUPIED) then occ[p := OccAt(occ, p) + [m]] else occ;
      Consistent(ms, occ', mm[m := MetaAt(mm, m)[p := meta]])
  {
    var occ' := if Has(meta, M_OCCUPIED) then occ[p := OccAt(occ, p) + [m]] else occ;
    var mm' := mm[m := MetaAt(mm, m)[p := meta]];
    assert m !in OccAt(occ, p);
    forall q ensures Distinct(OccAt(occ', q)) {
      if q == p && Has(meta, M_OCCUPIED) {
        AppendKeepsDistinct(OccAt(occ, p), m);
      } else {
        assert OccAt(occ', q) == OccAt(occ, q);
      }
    }
    assert forall x :: MetaAt(mm', x) == if x == m then MetaAt(mm, m)[p := meta] else MetaAt(mm, x);
    forall x, q | x in OccAt(occ', q) ensures ClaimsIn(mm', x, q) {
      if q == p && Has(meta, M_OCCUPIED) && x == m {
      } else {
        assert x in OccAt(occ, q);
        assert ClaimsIn(mm, x, q);
      }
    }
    forall x, q | x in mm' && ClaimsIn(mm', x, q) ensures x in OccAt(occ', q) {
      if x == m && q == p {
      } else {
        assert ClaimsIn(mm, x, q);
        assert x in OccAt(occ, q);
        if q == p && Has(meta, M_OCCUPIED) {
          assert OccAt(occ', q) == OccAt(occ, q) + [m];
        } else {
          assert OccAt(occ', q) == OccAt(occ, q);
        }
      }
    }
  }

  /** Dropping m everywhere it is listed keeps the tables consistent, and in
      consistent tables removing the first m removes every m. */
  lemma RemoveKeepsConsistent<M>(ms: seq<M>, occ: map<Pos, seq<M>>, mm: map<M, map<Pos, Meta>>,
                                 m: M, occ': map<Pos, seq<M>>)
    requires Consistent(ms, occ, mm)
    requires forall p :: (OccAt(occ', p) ==
      if ClaimsIn(mm, m, p) then RemoveFirst(OccAt(occ, p), m) else OccAt(occ, p))
    ensures RemoveFirst(ms, m) == Without(ms, {m})
    ensures forall p :: OccAt(occ', p) == Without(OccAt(occ, p), {m})
    ensures Consistent(Without(ms, {m}), occ', mm - {m})
  {
    RemoveFirstOfDistinct(ms, m);
    WithoutKeepsDistinct(ms, {m});
    forall p ensures OccAt(occ', p) == Without(OccAt(occ, p), {m}) && Distinct(OccAt(occ', p)) {
      RemoveEveryM(occ, mm, m, occ', p);
    }
    assert MetaListed(Without(ms, {m}), mm - {m});
    RemoveKeepsAgreement(occ, mm, m, occ');
  }

  /** Without m in its occupants and its metadata, every other match still
      occupies exactly the positions it claims. */
  lemma RemoveKeepsAgreement<M>(occ: map<Pos, seq<M>>, mm: map<M, map<Pos, Meta>>, m: M, occ': map<Pos, seq<M>>)
    requires OccAgrees(occ, mm)
    requires forall p :: OccAt(occ', p) == Without(OccAt(occ, p), {m})
    ensures OccAgrees(occ', mm - {m})
  {
    var mm' := mm - {m};
    assert forall x :: x != m ==> MetaAt(mm', x) == MetaAt(mm, x);
    forall x, p | x in OccAt(occ', p) ensures ClaimsIn(mm', x, p) {
      assert x in OccAt(occ, p) && x != m;
      assert ClaimsIn(mm, x, p);
    }
    forall x, p | x in mm' && ClaimsIn(mm', x, p) ensures x in OccAt(occ', p) {
      assert x != m && x in mm && ClaimsIn(mm, x, p);
      assert x in OccAt(occ, p);
    }
  }

  /** At one position: removing the first m from a consistent occupant
      list removes every m, and keeps it free of repetitions. */
  lemma RemoveEveryM<M>(occ: map<Pos, seq<M>>, mm: map<M, map<Pos, Meta>>, m: M, occ': map<Pos, seq<M>>, p: Pos)
    requires OccDistinct(occ) && OccAgrees(occ, mm)
    requires OccAt(occ', p) == if ClaimsIn(mm, m, p) then RemoveFirst(OccAt(occ, p), m) else OccAt(occ, p)
    ensures OccAt(occ', p) == Without(OccAt(occ, p), {m}) && Distinct(OccAt(occ', p))
  {
    var s := OccAt(occ, p);
    assert Distinct(s);
    RemoveFirstOfDistinct(s, m);
    if !ClaimsIn(mm, m, p) {
      assert m !in s;
      WithoutNothing(s, {m});
    }
    WithoutKeepsDistinct(s, {m});
  }

  /** Removing the matches of `gone` and then those of `more` is removing
      both at once, in every table. */
  lemma RemoveMore<M>(ms0: seq<M>, occ0: map<Pos, seq<M>>, mm0: map<M, map<Pos, Meta>>, gone: set<M>, more: set<M>,
                      ms: seq<M>, occ: map<Pos, seq<M>>, mm: map<M, map<Pos, Meta>>,
                      ms': seq<M>, occ': map<Pos, seq<M>>, mm': map<M, map<Pos, Meta>>)
    requires ms == Without(ms0, gone) && mm == mm0 - gone
    requires forall q :: OccAt(occ, q) == Without(OccAt(occ0, q), gone)
    requires ms' == Without(ms, more) && mm' == mm - more
    requires forall q :: OccAt(occ', q) == Without(OccAt(occ, q), more)
    ensures ms' == Without(ms0, gone + more) && mm' == mm0 - (gone + more)
    ensures forall q :: OccAt(occ', q) == Without(OccAt(occ0, q), gone + more)
  {
    WithoutTwice(ms0, gone, more);
    forall q ensures OccAt(occ', q) == Without(OccAt(occ0, q), gone + more) {
      WithoutTwice(OccAt(occ0, q), gone, more);
    }
  }

  /** Removing nothing leaves every table as it is. */
  lemma RemoveNone<M>(ms: seq<M>, occ: map<Pos, seq<M>>, mm: map<M, map<Pos, Meta>>)
    ensures ms == Without(ms, {}) && mm == mm - {}
    ensures forall q :: OccAt(occ, q) == Without(OccAt(occ, q), {})
  {
    WithoutNothing(ms, {});
    forall q ensures OccAt(occ, q) == Without(OccAt(occ, q), {}) {
      WithoutNothing(OccAt(occ, q), {});
    }
  }

  /** The elements of a list, as a set. */
  ghost function Elems<M>(xs: seq<M>): set<M> {
    set x | x in xs
  }

  /** The listed matches sharing a position with m that m claims. */
  ghost function CooccupantsIn<M>(ms: seq<M>, occ: map<Pos, seq<M>>, mm: map<M, map<Pos, Meta>>, m: M): set<M> {
    set x | x in ms && exists p :: ClaimsIn(mm, m, p) && x in OccAt(occ, p)
  }

  /** Clearing one position m claims removes co-occupants only, and
      afterwards every original occupant of it is gone. */
  lemma ClearOne<M>(ms0: seq<M>, occ0: map<Pos, seq<M>>, mm0: map<M, map<Pos, Meta>>, m: M,
                    gone: set<M>, occ: map<Pos, seq<M>>, p: Pos)
    requires Consistent(ms0, occ0, mm0) && ClaimsIn(mm0, m, p)
    requires OccAt(occ, p) == Without(OccAt(occ0, p), gone)
    ensures Elems(OccAt(occ, p)) <= CooccupantsIn(ms0, occ0, mm0, m)
    ensures Elems(OccAt(occ0, p)) <= gone + Elems(OccAt(occ, p))
  {
  }

  /** Once every position m claims has been cleared, exactly its
      co-occupants are gone and those positions have no occupant left. */
  lemma AllCleared<M>(ms0: seq<M>, occ0: map<Pos, seq<M>>, mm0: map<M, map<Pos, Meta>>, m: M,
                      gone: set<M>, occ: map<Pos, seq<M>>)
    requires Consistent(ms0, occ0, mm0)
    requires gone <= CooccupantsIn(ms0, occ0, mm0, m)
    requires forall p :: ClaimsIn(mm0, m, p) ==> Elems(OccAt(occ0, p)) <= gone
    requires forall p :: OccAt(occ, p) == Without(OccAt(occ0, p), gone)
    ensures gone == CooccupantsIn(ms0, occ0, mm0, m)
    ensures forall p :: ClaimsIn(mm0, m, p) ==> OccAt(occ, p) == []
  {
    forall x | x in CooccupantsIn(ms0, occ0, mm0, m) ensures x in gone {
      var p :| ClaimsIn(mm0, m, p) && x in OccAt(occ0, p);
      assert x in Elems(OccAt(occ0, p));
    }
    forall p | ClaimsIn(mm0, m, p) ensures OccAt(occ, p) == [] {
      WithoutAll(OccAt(occ0, p), gone);
    }
  }

  class MatchLookup<M(==)> {
    var matches: seq<M>
    var occupants: map<Pos, seq<M>>
    var matchMeta: map<M, map<Pos, Meta>>

    /** The matches claiming p, none when p was never claimed. */
    function Occupants(p: Pos): seq<M>
      reads this
    {
      OccAt(occupants, p)
    }

    /** The metadata m has reported, position by position. */
    function MetaOf(m: M): map<Pos, Meta>
      reads this
    {
      MetaAt(matchMeta, m)
    }

    ghost predicate Valid()
      reads this
    {
      Consistent(matches, occupants, matchMeta)
    }

    constructor()
      ensures matches == [] && occupants == map[] && matchMeta == map[]
      ensures Valid()
    {
      matches := [];
      occupants := map[];
      matchMeta := map[];
    }

    method AddMatch(m: M)
      modifies this
      ensures matches == old(matches) + [m]
      ensures occupants == old(occupants) && matchMeta == old(matchMeta)
      ensures old(Valid()) && m !in old(matches) ==> Valid()
    {
      if Valid() && m !in matches {
        AddMatchKeepsConsistent(matches, occupants, matchMeta, m);
      }
      matches := matches + [m];
    }

    /** Record `meta` for m at p, and list m among the occupants of p when
        `meta` claims it. */
    method AddMeta(m: M, p: Pos, meta: Meta)
      modifies this
      ensures matches == old(matches)
      ensures matchMeta == old(matchMeta)[m := MetaAt(old(matchMeta), m)[p := meta]]
      ensures Has(meta, M_OCCUPIED) ==> occupants == old(occupants)[p := OccAt(old(occupants), p) + [m]]
      ensures !Has(meta, M_OCCUPIED) ==> occupants == old(occupants)
      ensures old(Valid()) && m in old(matches) && p !in MetaAt(old(matchMeta), m) ==> Valid()
    {
      if Valid() && m in matches && p !in MetaOf(m) {
        AddMetaKeepsConsistent(matches, occupants, matchMeta, m, p, meta);
      }
      if Has(meta, M_OCCUPIED) {
        occupants := occupants[p := Occupants(p) + [m]];
      }
      matchMeta := matchMeta[m := MetaOf(m)[p := meta]];
    }

    /** Drop m from the occupants of every position `claims` marks
        M_OCCUPIED, one position at a time. */
    method Unlist(m: M, claims: map<Pos, Meta>)
      modifies this
      ensures matches == old(matches) && matchMeta == old(matchMeta)
      ensures forall p :: (OccAt(occupants, p) ==
        if p in claims && Has(claims[p], M_OCCUPIED) then RemoveFirst(OccAt(old(occupants), p), m)
        else OccAt(old(occupants), p))
    {
      ghost var occ0 := occupants;
      var ks := claims.Keys;
      while ks != {}
        invariant ks <= claims.Keys
        invariant matches == old(matches) && matchMeta == old(matchMeta)
        invariant forall p :: (OccAt(occupants, p) ==
          if p in claims && Has(claims[p], M_OCCUPIED) && p !in ks then RemoveFirst(OccAt(occ0, p), m)
          else OccAt(occ0, p))
        decreases ks
      {
        var p :| p in ks;
        if Has(claims[p], M_OCCUPIED) {
          occupants := occupants[p := RemoveFirst(Occupants(p), m)];
        }
        ks := ks - {p};
      }
    }

    /** Drop m from the matches and from the occupants of every position it
        claims, and forget its metadata. */
    method RemoveMatch(m: M)
      modifies this
      ensures matches == RemoveFirst(old(matches), m)
      ensures matchMeta == old(matchMeta) - {m}
      ensures forall p :: (OccAt(occupants, p) ==
        if ClaimsIn(old(matchMeta), m, p) then RemoveFirst(OccAt(old(occupants), p), m) else OccAt(old(occupants), p))
      ensures old(Valid()) ==> Valid()
      ensures old(Valid()) ==> matches == Without(old(matches), {m})
      ensures old(Valid()) ==> forall p :: OccAt(occupants, p) == Without(OccAt(old(occupants), p), {m})
    {
      ghost var occ0 := occupants;
      ghost var mm0 := matchMeta;
      matches := RemoveFirst(matches, m);
      Unlist(m, MetaOf(m));
      matchMeta := matchMeta - {m};
      if old(Valid()) {
        RemoveKeepsConsistent(old(matches), occ0, mm0, m, occupants);
      }
    }

    /** The matches sharing a claimed position with m, m among them when it
        claims any. */
    ghost function Cooccupants(m: M): set<M>
      reads this
    {
      CooccupantsIn(matches, occupants, matchMeta, m)
    }

    /** `for m in occupants: self.remove_match(m)`: drop each of `xs` in
        turn. */
    method RemoveEach(xs: seq<M>)
      requires Valid()
      modifies this
      ensures Valid()
      ensures matches == Without(old(matches), Elems(xs))
      ensures matchMeta == old(matchMeta) - Elems(xs)
      ensures forall p :: OccAt(occupants, p) == Without(OccAt(old(occupants), p), Elems(xs))
    {
      ghost var ms0, occ0, mm0 := matches, occupants, matchMeta;
      RemoveNone(ms0, occ0, mm0);
      ghost var done: set<M> := {};
      var i := 0;
      while i < |xs|
        invariant i <= |xs| && Valid()
        invariant done == Elems(xs[..i])
        invariant matches == Without(ms0, done) && matchMeta == mm0 - done
        invariant forall q :: OccAt(occupants, q) == Without(OccAt(occ0, q), done)
      {
        ghost var ms1, occ1, mm1 := matches, occupants, matchMeta;
        RemoveMatch(xs[i]);
        RemoveMore(ms0, occ0, mm0, done, {xs[i]}, ms1, occ1, mm1, matches, occupants, matchMeta);
        assert xs[..i + 1] == xs[..i] + [xs[i]];
        done := done + {xs[i]};
        i := i + 1;
      }
      assert xs[..i] == xs;
    }

    /** `for m in self.get_occupants_at(pos): self.remove_match(m)`, with
        the account of what the clearing has removed so far. */
    method ClearPosition(p: Pos, ghost m: M, ghost ms0: seq<M>, ghost occ0: map<Pos, seq<M>>,
                         ghost mm0: map<M, map<Pos, Meta>>, ghost gone: set<M>) returns (ghost gone': set<M>)
      requires Valid() && Consistent(ms0, occ0, mm0) && ClaimsIn(mm0, m, p)
      requires gone <= CooccupantsIn(ms0, occ0, mm0, m)
      requires matches == Without(ms0, gone) && matchMeta == mm0 - gone
      requires forall q :: OccAt(occupants, q) == Without(OccAt(occ0, q), gone)
      modifies this
      ensures Valid() && gone <= gone' <= CooccupantsIn(ms0, occ0, mm0, m)
      ensures Elems(OccAt(occ0, p)) <= gone'
      ensures matches == Without(ms0, gone') && matchMeta == mm0 - gone'
      ensures forall q :: OccAt(occupants, q) == Without(OccAt(occ0, q), gone')
    {
      var occ := Occupants(p);
      ClearOne(ms0, occ0, mm0, m, gone, occupants, p);
      ghost var ms1, occ1, mm1 := matches, occupants, matchMeta;
      RemoveEach(occ);
      RemoveMore(ms0, occ0, mm0, gone, Elems(occ), ms1, occ1, mm1, matches, occupants, matchMeta);
      gone' := gone + Elems(occ);
    }

    /** The loop of remove_cooccupants: clear, one after the other, the
        positions `claims` marks M_OCCUPIED. */
    method ClearAll(claims: map<Pos, Meta>, ghost m: M) returns (ghost gone: set<M>)
      requires Valid() && claims == MetaOf(m)
      modifies this
      ensures Valid() && gone <= old(Cooccupants(m))
      ensures forall p :: ClaimsIn(old(matchMeta), m, p) ==> Elems(OccAt(old(occupants), p)) <= gone
      ensures matches == Without(old(matches), gone) && matchMeta == old(matchMeta) - gone
      ensures forall p :: OccAt(occupants, p) == Without(OccAt(old(occupants), p), gone)
    {
      ghost var ms0, occ0, mm0 := matches, occupants, matchMeta;
      var ks := claims.Keys;
      gone := {};
      RemoveNone(ms0, occ0, mm0);
      while ks != {}
        invariant ks <= claims.Keys && Valid() && gone <= CooccupantsIn(ms0, occ0, mm0, m)
        invariant forall p :: p in claims && Has(claims[p], M_OCCUPIED) && p !in ks ==> Elems(OccAt(occ0, p)) <= gone
        invariant matches == Without(ms0, gone) && matchMeta == mm0 - gone
        invariant forall p :: OccAt(occupants, p) == Without(OccAt(occ0, p), gone)
        decreases ks
      {
        var p :| p in ks;
        ghost var gone0, ks0 := gone, ks;
        if Has(claims[p], M_OCCUPIED) {
          gone := ClearPosition(p, m, ms0, occ0, mm0, gone);
        }
        ks := ks - {p};
        forall q | q in claims && Has(claims[q], M_OCCUPIED) && q !in ks
          ensures Elems(OccAt(occ0, q)) <= gone
        {
          if q != p {
            assert q !in ks0 && gone0 <= gone;
          }
        }
      }
    }

    /** Drop every match that claims a position m claims. Afterwards nobody
        claims those positions any more. */
    method RemoveCooccupants(m: M)
      requires Valid()
      modifies this
      ensures Valid()
      ensures var e := old(Cooccupants(m));
        && matches == Without(old(matches), e)
        && matchMeta == old(matchMeta) - e
        && (forall p :: OccAt(occupants, p) == Without(OccAt(old(occupants), p), e))
      ensures forall p :: ClaimsIn(old(matchMeta), m, p) ==> OccAt(occupants, p) == []
    {
      ghost var ms0, occ0, mm0 := matches, occupants, matchMeta;
      ghost var gone := ClearAll(MetaOf(m), m);
      AllCleared(ms0, occ0, mm0, m, gone, occupants);
    }
  }
}
