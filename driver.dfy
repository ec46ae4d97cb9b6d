/** The recognition loop: every pattern class in turn scans the whole text,
    cell by cell, starting a new match at every cell and resuming every live
    one; completed matches claim their cells for good. */
module Driver {
  import opened Flags
  import opened Grid
  import opened PatternBase
  import opened Shapes
  import opened Catalog
  import opened Lookup
  import opened Lines

  /** What test() hands back: the metadata the matcher reported for the
      cell, StopIteration (the matcher has ended), or PatternRejected. */
  datatype Response = Reported(meta: Meta) | Stopped | Refused

  datatype Resumed = Resumed(response: Response, machine: Machine, closed: bool)

  /** One call of test() on a generator suspended in `machine`: a generator
      that has already ended (returned or raised) answers StopIteration
      again; otherwise a yield is reported, a return ends the generator with
      StopIteration, and a rejection or an unreachable position ends it with
      PatternRejected. */
  function Resume(mode: AwaitMode, machine: Machine, closed: bool, c: Cell): (r: Resumed)
    ensures closed ==> r == Resumed(Stopped, machine, true)
    ensures !closed ==> (r.response.Reported? <==> Step(mode, machine, c).Yield?)
    ensures !closed && r.response.Stopped? ==> Step(mode, machine, c) == Return(r.machine)
    ensures !closed && r.response.Reported? ==> Step(mode, machine, c) == Yield(r.response.meta, r.machine)
    ensures r.response.Reported? && Has(r.response.meta, M_OCCUPIED) ==> !Occupied(c)
    ensures r.closed <==> !r.response.Reported?
  {
    if closed then Resumed(Stopped, machine, true)
    else match Step(mode, machine, c)
      case Yield(m, next) => Resumed(Reported(m), next, false)
      case Return(final) => Resumed(Stopped, final, true)
      case Raise(_) => Resumed(Refused, machine, true)
  }

  /** One match in progress: a matcher of one pattern class and whether it
      has finished. */
  class Pattern {
    const mode: AwaitMode
    var machine: Machine
    /** the generator has returned or raised */
    var closed: bool
    var isFinished: bool
    /** the matcher itself returned, as opposed to a StopIteration from a
        generator that had already ended */
    ghost var returned: bool
    /** the metadata the loop has recorded for this match, cell by cell */
    ghost var record: map<Pos, Meta>

    constructor(mode: AwaitMode, g: Grammar)
      ensures this.mode == mode && machine == Initial(g)
      ensures !closed && !isFinished && !returned && record == map[]
    {
      this.mode := mode;
      machine := Initial(g);
      closed := false;
      isFinished := false;
      returned := false;
      record := map[];
    }

    method Test(c: Cell) returns (r: Response)
      modifies this
      ensures var out := Resume(mode, old(machine), old(closed), c);
        r == out.response && machine == out.machine && closed == out.closed
      ensures isFinished == (old(isFinished) || r.Stopped?)
      ensures returned == (old(returned) || (!old(closed) && r.Stopped?))
      ensures record == old(record)
    {
      var out := Resume(mode, machine, closed, c);
      if out.response.Stopped? {
        isFinished := true;
        returned := returned || !closed;
      }
      r, machine, closed := out.response, out.machine, out.closed;
    }

    /** render(): PatternStateError unless the match finished, otherwise
        its drawing. */
    function Render(): (r: Option<seq<Primitive>>)
      reads this
      ensures r.None? <==> !isFinished
      ensures r.Some? ==> r.value == Drawing(machine)
    {
      if isFinished then Some(Drawing(machine)) else None
    }
  }

  /** `complete_meta.get(p, M_NONE)` */
  function Get(m: map<Pos, Meta>, p: Pos): Meta {
    if p in m then m[p] else M_NONE
  }

  /** Each live match's own record is what the lookup holds for it. */
  ghost predicate Tracked(L: MatchLookup<Pattern>)
    reads L, L.matches
  {
    forall y :: y in L.matches ==> y.record == L.MetaOf(y)
  }

  /** The metadata at p once the records of `recs` have been merged in, in
      order, into an empty table. */
  function Accumulated(recs: seq<map<Pos, Meta>>, p: Pos): Meta
    decreases |recs|
  {
    if recs == [] then M_NONE
    else Union(Accumulated(recs[..|recs| - 1], p), Get(recs[|recs| - 1], p))
  }

  /** Merging a record in ORs its metadata in. */
  lemma AccumulatedStep(recs: seq<map<Pos, Meta>>, rec: map<Pos, Meta>, p: Pos)
    ensures Accumulated(recs + [rec], p) == Union(Accumulated(recs, p), Get(rec, p))
  {
    assert (recs + [rec])[..|recs|] == recs;
  }

  lemma HasOr(a: Meta, b: Meta, flag: Meta)
    ensures Has(Union(a, b), flag) <==> Has(a, flag) || Has(b, flag)
  {
    assert (a | b) & flag == (a & flag) | (b & flag);
  }

  /** A flag is set in the merged table at p exactly when one of the
      records sets it there. */
  lemma {:induction false} AccumulatedHas(recs: seq<map<Pos, Meta>>, p: Pos, flag: Meta)
    ensures Has(Accumulated(recs, p), flag) <==> exists i :: 0 <= i < |recs| && Has(Get(recs[i], p), flag)
    decreases |recs|
  {
    if recs == [] {
      assert Accumulated(recs, p) == M_NONE;
    } else {
      var n := |recs| - 1;
      var init := recs[..n];
      AccumulatedHas(init, p, flag);
      HasOr(Accumulated(init, p), Get(recs[n], p), flag);
      if Has(Accumulated(recs, p), flag) {
        if Has(Accumulated(init, p), flag) {
          var i :| 0 <= i < |init| && Has(Get(init[i], p), flag);
          assert init[i] == recs[i];
        } else {
          assert Has(Get(recs[n], p), flag);
        }
      } else {
        forall i | 0 <= i < |recs| ensures !Has(Get(recs[i], p), flag) {
          if i < n {
            assert init[i] == recs[i];
          }
        }
      }
    }
  }

  /** No position is claimed by two of the records. */
  ghost predicate Exclusive(recs: seq<map<Pos, Meta>>) {
    forall i, j, p :: 0 <= i < j < |recs| && Claimed(recs[i], p) ==> !Claimed(recs[j], p)
  }

  /** A record claiming only positions the merged table leaves unoccupied
      can join exclusive records and keep them exclusive. */
  lemma ExclusiveExtend(recs: seq<map<Pos, Meta>>, rec: map<Pos, Meta>)
    requires Exclusive(recs)
    requires forall p :: Claimed(rec, p) ==> !Has(Accumulated(recs, p), M_OCCUPIED)
    ensures Exclusive(recs + [rec])
  {
    var all := recs + [rec];
    forall i, j, p | 0 <= i < j < |all| && Claimed(all[i], p) ensures !Claimed(all[j], p) {
      if j == |recs| {
        assert all[i] == recs[i];
        AccumulatedHas(recs, p, M_OCCUPIED);
        assert Has(Get(recs[i], p), M_OCCUPIED);
      } else {
        assert all[i] == recs[i] && all[j] == recs[j];
      }
    }
  }

  /** Merging more records in never clears a bit. */
  lemma {:induction false} AccumulatedGrows(recs: seq<map<Pos, Meta>>, more: seq<map<Pos, Meta>>, p: Pos)
    ensures Covers(Accumulated(recs + more, p), Accumulated(recs, p))
    decreases |more|
  {
    if more == [] {
      assert recs + more == recs;
    } else {
      var init := more[..|more| - 1];
      AccumulatedGrows(recs, init, p);
      assert (recs + more)[..|recs + more| - 1] == recs + init;
      CoversOr(Accumulated(recs + init, p), Accumulated(recs, p), Get(more[|more| - 1], p));
    }
  }

  /** The merged metadata of a longer history covers that of any prefix. */
  lemma AccumulatedPrefix(recs: seq<map<Pos, Meta>>, recs': seq<map<Pos, Meta>>, p: Pos)
    requires recs <= recs'
    ensures Covers(Accumulated(recs', p), Accumulated(recs, p))
  {
    assert recs + recs'[|recs|..] == recs';
    AccumulatedGrows(recs, recs'[|recs|..], p);
  }

  lemma CoversOr(a: Meta, b: Meta, c: Meta)
    requires Covers(a, b)
    ensures Covers(Union(a, c), b)
  {
    assert (a | c) & b == (a & b) | (c & b);
  }

  /** Every claim still held by a live match is at a position no completed
      match occupies. */
  ghost predicate ClaimsFree(mm: map<Pattern, map<Pos, Meta>>, meta: map<Pos, Meta>) {
    forall y, p :: y in mm && ClaimsIn(mm, y, p) ==> !Has(Get(meta, p), M_OCCUPIED)
  }

  /** Every live match has reported only at cells the scan has passed, or at
      the current cell q once it has been resumed there. */
  ghost predicate ReportedBefore(mm: map<Pattern, map<Pos, Meta>>, q: Pos, tested: set<Pattern>) {
    forall y, p :: y in mm && p in mm[y] ==> Before(p, q) || (p == q && y in tested)
  }

  /** A completing match's eviction of every live match sharing one of its
      claimed positions leaves the remaining claims clear of the merged
      metadata. */
  lemma EvictionFreesClaims(ms: seq<Pattern>, occ: map<Pos, seq<Pattern>>, mm: map<Pattern, map<Pos, Meta>>,
                            x: Pattern, meta0: map<Pos, Meta>, meta1: map<Pos, Meta>)
    requires Consistent(ms, occ, mm)
    requires ClaimsFree(mm, meta0)
    requires forall p :: Get(meta1, p) == Union(Get(meta0, p), Get(MetaAt(mm, x), p))
    ensures ClaimsFree(mm - CooccupantsIn(ms, occ, mm, x) - {x}, meta1)
  {
    var e := CooccupantsIn(ms, occ, mm, x);
    var mm' := mm - e - {x};
    forall y, p | y in mm' && ClaimsIn(mm', y, p) ensures !Has(Get(meta1, p), M_OCCUPIED) {
      assert MetaAt(mm', y) == MetaAt(mm, y);
      assert ClaimsIn(mm, y, p);
      HasOr(Get(meta0, p), Get(MetaAt(mm, x), p), M_OCCUPIED);
      assert y in ms && y !in e;
      assert y in OccAt(occ, p);
      assert !ClaimsIn(mm, x, p);
    }
  }

  /** Dropping live matches, and resuming more of them, keeps what holds of
      each remaining match's reports. */
  lemma KeptReports(mm: map<Pattern, map<Pos, Meta>>, mm': map<Pattern, map<Pos, Meta>>, meta: map<Pos, Meta>,
                    q: Pos, tested: set<Pattern>, tested': set<Pattern>)
    requires forall y :: y in mm' ==> y in mm && mm'[y] == mm[y]
    requires tested <= tested'
    requires ClaimsFree(mm, meta) && ReportedBefore(mm, q, tested)
    ensures ClaimsFree(mm', meta) && ReportedBefore(mm', q, tested')
  {
    forall y, p | y in mm' && ClaimsIn(mm', y, p) ensures !Has(Get(meta, p), M_OCCUPIED) {
      assert MetaAt(mm', y) == MetaAt(mm, y);
    }
  }

  /** Recording a report of a live match at the current cell, claiming it
      only when no completed match occupies it. */
  lemma RecordKeeps(mm: map<Pattern, map<Pos, Meta>>, meta: map<Pos, Meta>, x: Pattern, q: Pos, m: Meta,
                    tested: set<Pattern>)
    requires ClaimsFree(mm, meta) && ReportedBefore(mm, q, tested)
    requires Has(m, M_OCCUPIED) ==> !Has(Get(meta, q), M_OCCUPIED)
    ensures var mm' := mm[x := MetaAt(mm, x)[q := m]];
      ClaimsFree(mm', meta) && ReportedBefore(mm', q, tested + {x})
  {
    var mm' := mm[x := MetaAt(mm, x)[q := m]];
    forall y, p | y in mm' && ClaimsIn(mm', y, p) ensures !Has(Get(meta, p), M_OCCUPIED) {
      if y != x || p != q {
        assert ClaimsIn(mm, y, p);
      }
    }
    forall y, p | y in mm' && p in mm'[y] ensures Before(p, q) || (p == q && y in tested + {x}) {
      if y != x || p != q {
        assert p in mm[y];
      }
    }
  }

  /** Moving the scan on to a later cell: every report was made before it. */
  lemma ReportedLater(mm: map<Pattern, map<Pos, Meta>>, q: Pos, tested: set<Pattern>, q': Pos)
    requires ReportedBefore(mm, q, tested) && Before(q, q')
    ensures ReportedBefore(mm, q', {})
  {
    forall y, p | y in mm && p in mm[y] ensures Before(p, q') {
      assert Before(p, q) || p == q;
    }
  }

  /** `meta` is `base` with every entry of `rec` outside `ks` ORed in. */
  ghost predicate MergedBut(meta: map<Pos, Meta>, base: map<Pos, Meta>, rec: map<Pos, Meta>, ks: set<Pos>) {
    && (forall r :: r in rec && r !in ks ==> Get(meta, r) == Union(Get(base, r), rec[r]))
    && (forall r :: r !in rec || r in ks ==> Get(meta, r) == Get(base, r))
  }

  /** Merging one more entry of the record. */
  lemma MergeOne(meta: map<Pos, Meta>, base: map<Pos, Meta>, rec: map<Pos, Meta>, ks: set<Pos>, p: Pos)
    requires MergedBut(meta, base, rec, ks) && p in ks && p in rec
    ensures MergedBut(meta[p := Union(Get(meta, p), rec[p])], base, rec, ks - {p})
  {
    var meta' := meta[p := Union(Get(meta, p), rec[p])];
    forall r | r in rec && r !in ks - {p} ensures Get(meta', r) == Union(Get(base, r), rec[r]) {
      if r == p {
        assert Get(meta, p) == Get(base, p);
      } else {
        assert Get(meta', r) == Get(meta, r);
      }
    }
    forall r | r !in rec || r in ks - {p} ensures Get(meta', r) == Get(base, r) {
      assert r != p && Get(meta', r) == Get(meta, r);
    }
  }

  /** With exclusive records merged, a position is occupied exactly when
      one record claims it, and no more than one does. */
  lemma OccupiedByOne(recs: seq<map<Pos, Meta>>, meta: map<Pos, Meta>, p: Pos)
    requires Exclusive(recs) && Get(meta, p) == Accumulated(recs, p)
    ensures Has(Get(meta, p), M_OCCUPIED) <==> exists i :: 0 <= i < |recs| && Claimed(recs[i], p)
    ensures forall i, j :: 0 <= i < |recs| && 0 <= j < |recs| && Claimed(recs[i], p) && Claimed(recs[j], p) ==> i == j
  {
    AccumulatedHas(recs, p, M_OCCUPIED);
    assert forall i :: 0 <= i < |recs| ==> (Has(Get(recs[i], p), M_OCCUPIED) <==> Claimed(recs[i], p));
  }

  /** The state of the recognition loop that persists across cells and
      pattern classes: the completed matches in completion order and the
      metadata merged from their records. */
  class Recognizer {
    const mode: AwaitMode
    var completeMatches: seq<Pattern>
    var completeMeta: map<Pos, Meta>
    /** the record of each completed match, in completion order */
    ghost var claims: seq<map<Pos, Meta>>
    /** the matches dropped from the lookup during the current pass */
    ghost var dropped: set<Pattern>

    /** Each completed match ended by returning, is listed once and left
        its record in `claims`; `completeMeta` is those records merged, and
        no two of them claim the same position. */
    ghost predicate Settled()
      reads this, completeMatches
    {
      && |claims| == |completeMatches|
      && Distinct(completeMatches)
      && (forall i :: 0 <= i < |completeMatches| ==> completeMatches[i].isFinished && completeMatches[i].returned)
      && (forall i :: 0 <= i < |completeMatches| ==> claims[i] == completeMatches[i].record)
      && (forall p :: Get(completeMeta, p) == Accumulated(claims, p))
      && Exclusive(claims)
    }

    /** Every live match is still open, neither completed nor dropped. */
    ghost predicate LiveOpen(L: MatchLookup<Pattern>)
      reads this, L, L.matches
    {
      forall x :: x in L.matches ==> !x.closed && x !in completeMatches && x !in dropped
    }

    /** The lookup of the current pass, at scan position q after resuming
        the matches of `tested` there. */
    ghost predicate Live(L: MatchLookup<Pattern>, q: Pos, tested: set<Pattern>)
      reads this, L, L.matches
    {
      && L.Valid()
      && LiveOpen(L)
      && Tracked(L)
      && ClaimsFree(L.matchMeta, completeMeta)
      && ReportedBefore(L.matchMeta, q, tested)
    }

    constructor(mode: AwaitMode)
      ensures this.mode == mode && completeMatches == [] && completeMeta == map[]
      ensures claims == [] && dropped == {}
      ensures Settled()
    {
      this.mode := mode;
      completeMatches := [];
      completeMeta := map[];
      claims := [];
      dropped := {};
    }

    /** `complete_meta[p] = complete_meta.get(p, M_NONE) | m` for every
        entry of a completed match's record. */
    method Absorb(rec: map<Pos, Meta>)
      modifies this`completeMeta
      ensures forall p :: Get(completeMeta, p) == Union(Get(old(completeMeta), p), Get(rec, p))
    {
      var ks := rec.Keys;
      assert MergedBut(completeMeta, old(completeMeta), rec, ks);
      while ks != {}
        invariant ks <= rec.Keys
        invariant MergedBut(completeMeta, old(completeMeta), rec, ks)
        decreases ks
      {
        var p :| p in ks;
        MergeOne(completeMeta, old(completeMeta), rec, ks, p);
        completeMeta := completeMeta[p := Union(Get(completeMeta, p), rec[p])];
        ks := ks - {p};
      }
    }

    /** A rejected match leaves the lookup. */
    method Reject(L: MatchLookup<Pattern>, x: Pattern, q: Pos, ghost tested: set<Pattern>)
      requires L.Valid() && ClaimsFree(L.matchMeta, completeMeta) && ReportedBefore(L.matchMeta, q, tested)
      requires Tracked(L)
      modifies L, this`dropped
      ensures L.Valid() && ClaimsFree(L.matchMeta, completeMeta) && ReportedBefore(L.matchMeta, q, tested + {x})
      ensures Tracked(L)
      ensures L.matches == Without(old(L.matches), {x})
      ensures dropped == old(dropped) + {x}
    {
      ghost var mm0 := L.matchMeta;
      L.RemoveMatch(x);
      dropped := dropped + {x};
      KeptReports(mm0, L.matchMeta, completeMeta, q, tested, tested + {x});
    }

    /** `complete_matches.append(match)` and the merge of its record into
        `complete_meta`, for a record claiming only unoccupied positions. */
    method Enlist(x: Pattern, rec: map<Pos, Meta>)
      requires Settled() && x !in completeMatches && x.isFinished && x.returned && x.record == rec
      requires forall p :: Claimed(rec, p) ==> !Has(Get(completeMeta, p), M_OCCUPIED)
      modifies this`completeMatches, this`claims, this`completeMeta
      ensures Settled()
      ensures completeMatches == old(completeMatches) + [x] && claims == old(claims) + [rec]
      ensures forall p :: Get(completeMeta, p) == Union(Get(old(completeMeta), p), Get(rec, p))
    {
      AppendKeepsDistinct(completeMatches, x);
      completeMatches := completeMatches + [x];
      ExclusiveExtend(claims, rec);
      forall p ensures Accumulated(claims + [rec], p) == Union(Accumulated(claims, p), Get(rec, p)) {
        AccumulatedStep(claims, rec, p);
      }
      claims := claims + [rec];
      Absorb(rec);
    }

    /** The lookup side of a completion: `remove_cooccupants(match)`
        followed by `remove_match(match)`. */
    static method Retire(L: MatchLookup<Pattern>, x: Pattern)
      requires L.Valid()
      modifies L
      ensures L.Valid()
      ensures var e := CooccupantsIn(old(L.matches), old(L.occupants), old(L.matchMeta), x);
        && L.matchMeta == old(L.matchMeta) - e - {x}
        && L.matches == Without(Without(old(L.matches), e), {x})
    {
      L.RemoveCooccupants(x);
      L.RemoveMatch(x);
    }

    /** `remove_cooccupants(match)` then `remove_match(match)` once the
        match's record is merged: what the remaining live matches claim is
        still free. */
    method Evict(L: MatchLookup<Pattern>, x: Pattern, q: Pos, ghost tested: set<Pattern>, ghost meta0: map<Pos, Meta>)
      requires L.Valid() && ClaimsFree(L.matchMeta, meta0) && ReportedBefore(L.matchMeta, q, tested)
      requires Tracked(L)
      requires forall p :: Get(completeMeta, p) == Union(Get(meta0, p), Get(L.MetaOf(x), p))
      modifies L, this`dropped
      ensures L.Valid() && ClaimsFree(L.matchMeta, completeMeta) && ReportedBefore(L.matchMeta, q, tested + {x})
      ensures Tracked(L)
      ensures x !in L.matches && forall y :: y in L.matches ==> y in old(L.matches)
      ensures dropped == old(dropped) + (set y | y in old(L.matches) && y !in L.matches)
    {
      ghost var ms0, occ0, mm0 := L.matches, L.occupants, L.matchMeta;
      EvictionFreesClaims(ms0, occ0, mm0, x, meta0, completeMeta);
      Retire(L, x);
      KeptReports(mm0, L.matchMeta, meta0, q, tested, tested + {x});
      dropped := dropped + (set y | y in ms0 && y !in L.matches);
    }

    /** A match that has returned is completed: it is listed, its record
        is merged into `completeMeta`, every live match sharing a position
        it claims is evicted, and it leaves the lookup. */
    method Complete(L: MatchLookup<Pattern>, x: Pattern, q: Pos, ghost tested: set<Pattern>)
      requires Settled() && x !in completeMatches && x.isFinished && x.returned
      requires L.Valid() && ClaimsFree(L.matchMeta, completeMeta) && ReportedBefore(L.matchMeta, q, tested)
      requires Tracked(L) && x in L.matches && x !in tested
      modifies this, L
      ensures Settled() && completeMatches == old(completeMatches) + [x]
      ensures claims == old(claims) + [old(L.MetaOf(x))]
      ensures L.Valid() && ClaimsFree(L.matchMeta, completeMeta) && ReportedBefore(L.matchMeta, q, tested + {x})
      ensures Tracked(L)
      ensures x !in L.matches && forall y :: y in L.matches ==> y in old(L.matches)
      ensures dropped == old(dropped) + (set y | y in old(L.matches) && y !in L.matches)
      ensures Get(completeMeta, q) == Get(old(completeMeta), q)
    {
      var rec := L.MetaOf(x);
      assert Get(rec, q) == M_NONE by {
        assert !Before(q, q);
        assert x in L.matchMeta ==> q !in L.matchMeta[x];
      }
      assert forall p :: Claimed(rec, p) ==> !Has(Get(completeMeta, p), M_OCCUPIED) by {
        forall p | Claimed(rec, p) ensures !Has(Get(completeMeta, p), M_OCCUPIED) {
          assert ClaimsIn(L.matchMeta, x, p);
        }
      }
      ghost var meta0 := completeMeta;
      Enlist(x, rec);
      Evict(L, x, q, tested, meta0);
    }

    /** The `else` branch of the driver: `add_meta(match, (j, i), matchmeta)`
        for a match that reported. */
    static method Record(L: MatchLookup<Pattern>, x: Pattern, q: Pos, m: Meta, ghost meta: map<Pos, Meta>,
                         ghost tested: set<Pattern>)
      requires L.Valid() && ClaimsFree(L.matchMeta, meta) && ReportedBefore(L.matchMeta, q, tested)
      requires Tracked(L) && x in L.matches && x !in tested
      requires Has(m, M_OCCUPIED) ==> !Has(Get(meta, q), M_OCCUPIED)
      modifies L, x`record
      ensures L.Valid() && ClaimsFree(L.matchMeta, meta) && ReportedBefore(L.matchMeta, q, tested + {x})
      ensures Tracked(L)
      ensures L.matches == old(L.matches) && x.record == old(x.record)[q := m]
    {
      assert q !in L.MetaOf(x) by {
        assert !Before(q, q);
        assert x in L.matchMeta ==> q !in L.matchMeta[x];
      }
      RecordKeeps(L.matchMeta, meta, x, q, m, tested);
      L.AddMeta(x, q, m);
      x.record := x.record[q := m];
    }

    /** `match.test(cell)` on an open match, as far as the loop needs it:
        a report keeps it open and claims only a free cell, a stop means it
        returned. */
    static method Poll(x: Pattern, c: Cell) returns (r: Response)
      requires !x.closed
      modifies x
      ensures r.Reported? ==> !x.closed && (Has(r.meta, M_OCCUPIED) ==> !Occupied(c))
      ensures r.Stopped? ==> x.isFinished && x.returned
      ensures x.record == old(x.record)
    {
      r := x.Test(c);
    }

    /** One turn of the inner loop for a match still live at cell c:
        `test` it, then drop it if it rejected, complete it if it stopped,
        or record what it reported. A match is resumed only while it is in
        the lookup, and the metadata at c is left as it was. */
    method Advance(L: MatchLookup<Pattern>, x: Pattern, c: Cell, ghost tested: set<Pattern>)
      requires Settled() && Live(L, c.At(), tested)
      requires x in L.matches && x !in tested
      requires c.meta == Get(completeMeta, c.At())
      modifies this, L, x
      ensures Settled() && Live(L, c.At(), tested + {x})
      ensures old(completeMatches) <= completeMatches && old(claims) <= claims
      ensures forall y :: y in L.matches ==> y in old(L.matches)
      ensures old(dropped) <= dropped
      ensures Get(completeMeta, c.At()) == Get(old(completeMeta), c.At())
    {
      var q := c.At();
      var r := Poll(x, c);
      match r
      case Refused =>
        Reject(L, x, q, tested);
      case Stopped =>
        Complete(L, x, q, tested);
      case Reported(m) =>
        Record(L, x, q, m, completeMeta, tested);
    }

    /** `self._matches.append(pattern.__class__())`: a new match of the
        pass's pattern class joins the lookup, open and with nothing
        recorded. */
    method Open(L: MatchLookup<Pattern>, g: Grammar, q: Pos)
      requires Live(L, q, {})
      modifies L
      ensures Live(L, q, {})
      ensures exists newp: Pattern :: fresh(newp) && L.matches == old(L.matches) + [newp]
    {
      var newp := new Pattern(mode, g);
      L.AddMatch(newp);
    }

    /** One cell of one pass (the body of `for i, char in ...`): read the
        metadata completed matches left at the cell, start a new match
        there, then resume each match of a snapshot of the live list that
        is still live when its turn comes. A match dropped at an earlier
        cell is never resumed again. */
    method Visit(L: MatchLookup<Pattern>, g: Grammar, row: int, col: int, ch: char)
      requires Settled() && Live(L, Pos(col, row), {})
      modifies this, L, set y | y in L.matches
      ensures Settled() && Live(L, Pos(col + 1, row), {})
      ensures old(completeMatches) <= completeMatches && old(claims) <= claims
      ensures forall y :: y in L.matches ==> y in old(L.matches) || fresh(y)
      ensures old(dropped) <= dropped
      ensures forall y :: y in old(dropped) ==>
        y.machine == old(y.machine) && y.closed == old(y.closed) && y.isFinished == old(y.isFinished)
    {
      var q := Pos(col, row);
      var meta := Get(completeMeta, q);
      Open(L, g, q);
      var ms := L.matches;
      ghost var tested: set<Pattern> := {};
      var i := 0;
      while i < |ms|
        invariant 0 <= i <= |ms|
        invariant Settled() && Live(L, q, tested)
        invariant Distinct(ms)
        invariant forall y :: y in tested ==> y in ms[..i]
        invariant forall y :: y in L.matches ==> y in ms
        invariant meta == Get(completeMeta, q)
        invariant old(completeMatches) <= completeMatches && old(claims) <= claims
        invariant old(dropped) <= dropped
        invariant forall y :: y in old(dropped) ==>
          y.machine == old(y.machine) && y.closed == old(y.closed) && y.isFinished == old(y.isFinished)
      {
        var x := ms[i];
        if x in L.matches {
          assert x !in tested by {
            assert forall k :: 0 <= k < i ==> ms[k] != ms[i];
          }
          Advance(L, x, Cell(row, col, ch, meta), tested);
          tested := tested + {x};
        }
        i := i + 1;
      }
      ReportedLater(L.matchMeta, q, tested, Pos(col + 1, row));
    }

    /** One row of a pass: every cell of `line`, left to right. */
    method ScanRow(L: MatchLookup<Pattern>, g: Grammar, row: int, line: string)
      requires Settled() && Live(L, Pos(0, row), {})
      modifies this, L, set y | y in L.matches
      ensures Settled() && Live(L, Pos(|line|, row), {})
      ensures forall y :: y in L.matches ==> y in old(L.matches) || fresh(y)
      ensures old(completeMatches) <= completeMatches && old(claims) <= claims
    {
      var col := 0;
      while col < |line|
        invariant 0 <= col <= |line|
        invariant Settled() && Live(L, Pos(col, row), {})
        invariant forall y :: y in L.matches ==> y in old(L.matches) || fresh(y)
        invariant old(completeMatches) <= completeMatches && old(claims) <= claims
      {
        Visit(L, g, row, col, line[col]);
        col := col + 1;
      }
    }

    /** One pass of one pattern class over every cell of every line, each
        line followed by its end-of-line character, with a lookup of its
        own. Completed matches and their metadata only accumulate. */
    method Pass(g: Grammar, lines: seq<string>)
      requires Settled()
      modifies this
      ensures Settled()
      ensures old(completeMatches) <= completeMatches && old(claims) <= claims
      ensures forall p :: Covers(Get(completeMeta, p), Get(old(completeMeta), p))
    {
      var L := new MatchLookup<Pattern>();
      dropped := {};
      var row := 0;
      while row < |lines|
        invariant Settled() && Live(L, Pos(0, row), {})
        invariant fresh(L) && forall y :: y in L.matches ==> fresh(y)
        invariant old(completeMatches) <= completeMatches && old(claims) <= claims
      {
        var line := lines[row] + [END_OF_LINE];
        ScanRow(L, g, row, line);
        ReportedLater(L.matchMeta, Pos(|line|, row), {}, Pos(0, row + 1));
        row := row + 1;
      }
      forall p ensures Covers(Get(completeMeta, p), Get(old(completeMeta), p)) {
        AccumulatedPrefix(old(claims), claims, p);
      }
    }
  }

  /** The recognition loop over a whole text: split it into lines after
      appending the end-of-input character, then run one pass per entry of
      PATTERNS in order. Every completed match ended by returning and can
      be rendered, and no two completed matches occupy the same position:
      the merged metadata marks a position occupied exactly when one
      completed match claimed it. */
  method Recognize(mode: AwaitMode, text: string)
    returns (complete: seq<Pattern>, completeMeta: map<Pos, Meta>, ghost claims: seq<map<Pos, Meta>>)
    ensures |claims| == |complete| && Distinct(complete)
    ensures forall i :: 0 <= i < |complete| ==>
      complete[i].isFinished && complete[i].returned && complete[i].Render().Some?
    ensures forall i :: 0 <= i < |complete| ==> claims[i] == complete[i].record
    ensures forall p :: Get(completeMeta, p) == Accumulated(claims, p)
    ensures Exclusive(claims)
    ensures forall i, j, p :: 0 <= i < j < |complete| && Claimed(complete[i].record, p) ==> !Claimed(complete[j].record, p)
  {
    var state := new Recognizer(mode);
    var lines := SplitLines(text + [END_OF_INPUT]);
    var k := 0;
    while k < |PATTERNS|
      invariant 0 <= k <= |PATTERNS|
      invariant state.Settled()
    {
      state.Pass(PATTERNS[k], lines);
      k := k + 1;
    }
    complete, completeMeta, claims := state.completeMatches, state.completeMeta, state.claims;
  }
}
