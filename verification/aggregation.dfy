/** Combining the per-profile results of one organization into a
    `name -> credentials` map: rayon's `try_fold_with` over contiguous pieces of
    the selection, `try_reduce_with` to join the pieces, and an empty map when
    there is nothing to reduce. */
module Aggregation {
  import opened Results
  import opened Types
  import Selection

  type Fetcher = Profile -> Result<Credentials, Error>
  type CredentialMap = map<string, Credentials>

  /** The profile names of a sequence of profiles. */
  function Names(ps: seq<Profile>): (names: set<string>)
    ensures forall i :: 0 <= i < |ps| ==> ps[i].name in names
    ensures forall n :: n in names ==> exists i :: 0 <= i < |ps| && ps[i].name == n
  {
    set i | 0 <= i < |ps| :: ps[i].name
  }

  /** Position `i` holds the last profile of its name, the one whose insert survives. */
  ghost predicate IsLastOfName(ps: seq<Profile>, i: int)
  {
    0 <= i < |ps| && forall j :: i < j < |ps| ==> ps[j].name != ps[i].name
  }

  /** `try_fold_with`: insert each profile's credentials into `acc`, stopping at
      the first failure. */
  function FoldFrom(fetch: Fetcher, ps: seq<Profile>, acc: CredentialMap): (r: Result<CredentialMap, Error>)
    ensures r.Ok? <==> forall i :: 0 <= i < |ps| ==> fetch(ps[i]).Ok?
    ensures r.Ok? ==> r.value.Keys == acc.Keys + Names(ps)
    ensures r.Ok? ==> forall n :: n in acc && n !in Names(ps) ==> r.value[n] == acc[n]
    ensures r.Ok? ==> forall i :: IsLastOfName(ps, i) ==> r.value[ps[i].name] == fetch(ps[i]).value
    ensures r.Err? ==> exists i :: 0 <= i < |ps| && fetch(ps[i]) == Err(r.error)
                                   && forall j :: 0 <= j < i ==> fetch(ps[j]).Ok?
  {
    if |ps| == 0 then Ok(acc)
    else
      match fetch(ps[0])
      case Err(e) => Err(e)
      case Ok(c) =>
        var r := FoldFrom(fetch, ps[1..], acc[ps[0].name := c]);
        NamesCons(ps);
        LastOfNameTail(ps);
        r
  }

  /** The names of a non-empty sequence are its head's name and the names of its tail. */
  lemma NamesCons(ps: seq<Profile>)
    requires |ps| > 0
    ensures Names(ps) == {ps[0].name} + Names(ps[1..])
  {
    assert forall i :: 1 <= i < |ps| ==> ps[i] == ps[1..][i - 1];
  }

  /** A last-of-name position past the head is a last-of-name position of the tail. */
  lemma LastOfNameTail(ps: seq<Profile>)
    requires |ps| > 0
    ensures forall i :: IsLastOfName(ps, i) && i > 0 ==> IsLastOfName(ps[1..], i - 1)
  {
    forall i | IsLastOfName(ps, i) && i > 0
      ensures IsLastOfName(ps[1..], i - 1)
    {
      assert forall j :: i - 1 < j < |ps| - 1 ==> ps[1..][j] == ps[j + 1];
    }
  }

  /** Every name of a sequence has a last position, the one whose insert survives. */
  lemma {:induction false} LastOfNameExists(ps: seq<Profile>, n: string)
    requires n in Names(ps)
    ensures exists i :: IsLastOfName(ps, i) && ps[i].name == n
  {
    NamesCons(ps);
    if n in Names(ps[1..]) {
      LastOfNameExists(ps[1..], n);
      var j :| IsLastOfName(ps[1..], j) && ps[1..][j].name == n;
      assert IsLastOfName(ps, j + 1);
    } else {
      assert IsLastOfName(ps, 0);
    }
  }

  /** Every name in a successful aggregate holds the credentials fetched for one
      of the profiles of that name, the last one. */
  lemma AggregateValue(fetch: Fetcher, ps: seq<Profile>, n: string)
    requires Aggregate(fetch, ps).Ok?
    requires n in Aggregate(fetch, ps).value
    ensures exists i :: IsLastOfName(ps, i) && ps[i].name == n && Aggregate(fetch, ps).value[n] == fetch(ps[i]).value
  {
    LastOfNameExists(ps, n);
  }

  /** The sequential model: fold the whole selection from an empty map. */
  function Aggregate(fetch: Fetcher, ps: seq<Profile>): (r: Result<CredentialMap, Error>)
    ensures r.Ok? <==> forall i :: 0 <= i < |ps| ==> fetch(ps[i]).Ok?
    ensures r.Ok? ==> r.value.Keys == Names(ps)
    ensures r.Ok? ==> forall i :: IsLastOfName(ps, i) ==> r.value[ps[i].name] == fetch(ps[i]).value
    ensures r.Err? ==> exists i :: 0 <= i < |ps| && fetch(ps[i]) == Err(r.error)
    ensures |ps| == 0 ==> r == Ok(map[])
  {
    FoldFrom(fetch, ps, map[])
  }

  /** With unique profile names, every selected profile's credentials are in the map under its name. */
  lemma AggregateUnique(fetch: Fetcher, ps: seq<Profile>)
    requires Selection.UniqueNames(ps)
    requires Aggregate(fetch, ps).Ok?
    ensures forall i :: 0 <= i < |ps| ==> Aggregate(fetch, ps).value[ps[i].name] == fetch(ps[i]).value
  {
    assert forall i :: 0 <= i < |ps| ==> IsLastOfName(ps, i);
  }

  /** `try_reduce_with`'s step: a failure on either side wins, otherwise `extend`. */
  function Reduce(a: Result<CredentialMap, Error>, b: Result<CredentialMap, Error>): (r: Result<CredentialMap, Error>)
    ensures r.Ok? <==> a.Ok? && b.Ok?
    ensures r.Ok? ==> r.value.Keys == a.value.Keys + b.value.Keys
    ensures r.Ok? ==> forall n :: n in b.value ==> r.value[n] == b.value[n]
    ensures r.Ok? ==> forall n :: n in a.value && n !in b.value ==> r.value[n] == a.value[n]
    ensures r.Err? ==> r == (if a.Err? then a else b)
  {
    if a.Err? then a
    else if b.Err? then b
    else Ok(a.value + b.value)
  }

  /** One fold result per piece, left to right. */
  function FoldPieces(fetch: Fetcher, pieces: seq<seq<Profile>>): (rs: seq<Result<CredentialMap, Error>>)
    ensures |rs| == |pieces|
    ensures forall i :: 0 <= i < |pieces| ==> rs[i] == Aggregate(fetch, pieces[i])
  {
    if |pieces| == 0 then [] else [Aggregate(fetch, pieces[0])] + FoldPieces(fetch, pieces[1..])
  }

  /** Reduce a non-empty sequence of fold results; `None` when there is none. */
  function ReduceAll(rs: seq<Result<CredentialMap, Error>>): (r: Option<Result<CredentialMap, Error>>)
    ensures r.None? <==> |rs| == 0
    ensures r.Some? ==> (r.value.Ok? <==> forall i :: 0 <= i < |rs| ==> rs[i].Ok?)
  {
    if |rs| == 0 then None
    else if |rs| == 1 then Some(rs[0])
    else Some(Reduce(rs[0], ReduceAll(rs[1..]).value))
  }

  /** The rayon shape: fold each piece, reduce the pieces, and on nothing to
      reduce fall back to an empty map (the "No profiles" case). */
  function ParallelAggregate(fetch: Fetcher, pieces: seq<seq<Profile>>): (r: Result<CredentialMap, Error>)
    ensures |pieces| == 0 ==> r == Ok(map[])
    ensures r.Ok? <==> forall i, j :: 0 <= i < |pieces| && 0 <= j < |pieces[i]| ==> fetch(pieces[i][j]).Ok?
  {
    match ReduceAll(FoldPieces(fetch, pieces))
    case None => Ok(map[])
    case Some(r) => r
  }

  function Flatten(pieces: seq<seq<Profile>>): seq<Profile>
  {
    if |pieces| == 0 then [] else pieces[0] + Flatten(pieces[1..])
  }

  /** Folding from a non-empty accumulator is folding from empty and extending the accumulator. */
  lemma {:induction false} FoldFromAccumulator(fetch: Fetcher, ps: seq<Profile>, acc: CredentialMap)
    ensures FoldFrom(fetch, ps, acc) == Reduce(Ok(acc), FoldFrom(fetch, ps, map[]))
  {
    if |ps| == 0 {
      assert acc + map[] == acc;
    } else if fetch(ps[0]).Ok? {
      var c := fetch(ps[0]).value;
      var n := ps[0].name;
      var one: CredentialMap := map[][n := c];
      var rest := FoldFrom(fetch, ps[1..], map[]);
      calc {
        FoldFrom(fetch, ps, acc);
        FoldFrom(fetch, ps[1..], acc[n := c]);
        { FoldFromAccumulator(fetch, ps[1..], acc[n := c]); }
        Reduce(Ok(acc[n := c]), rest);
        { if rest.Ok? { assert acc[n := c] + rest.value == acc + (one + rest.value); } }
        Reduce(Ok(acc), Reduce(Ok(one), rest));
        { FoldFromAccumulator(fetch, ps[1..], one); }
        Reduce(Ok(acc), FoldFrom(fetch, ps[1..], one));
        Reduce(Ok(acc), FoldFrom(fetch, ps, map[]));
      }
    }
  }

  /** Folding a concatenation is reducing the folds of the two parts. */
  lemma {:induction false} FoldSplit(fetch: Fetcher, ps: seq<Profile>, qs: seq<Profile>)
    ensures Aggregate(fetch, ps + qs) == Reduce(Aggregate(fetch, ps), Aggregate(fetch, qs))
  {
    FoldSplitFrom(fetch, ps, qs, map[]);
    var a := Aggregate(fetch, ps);
    if a.Ok? {
      FoldFromAccumulator(fetch, qs, a.value);
    }
  }

  lemma {:induction false} FoldSplitFrom(fetch: Fetcher, ps: seq<Profile>, qs: seq<Profile>, acc: CredentialMap)
    ensures FoldFrom(fetch, ps + qs, acc) ==
            match FoldFrom(fetch, ps, acc)
            case Err(e) => Err(e)
            case Ok(m) => FoldFrom(fetch, qs, m)
  {
    if |ps| == 0 {
      assert ps + qs == qs;
    } else {
      assert (ps + qs)[0] == ps[0];
      assert (ps + qs)[1..] == ps[1..] + qs;
      var c := fetch(ps[0]);
      if c.Ok? {
        FoldSplitFrom(fetch, ps[1..], qs, acc[ps[0].name := c.value]);
      }
    }
  }

  /** Rayon's split-fold-reduce computes exactly the sequential fold of the whole selection. */
  lemma {:induction false} ParallelIsSequential(fetch: Fetcher, pieces: seq<seq<Profile>>)
    ensures ParallelAggregate(fetch, pieces) == Aggregate(fetch, Flatten(pieces))
  {
    if |pieces| == 1 {
      assert Flatten(pieces) == pieces[0] + [];
      assert pieces[0] + [] == pieces[0];
    } else if |pieces| > 1 {
      ParallelIsSequential(fetch, pieces[1..]);
      assert FoldPieces(fetch, pieces)[1..] == FoldPieces(fetch, pieces[1..]);
      FoldSplit(fetch, pieces[0], Flatten(pieces[1..]));
    }
  }

  /** Joining two successful pieces with disjoint names does not depend on their order. */
  lemma ReduceCommutes(a: Result<CredentialMap, Error>, b: Result<CredentialMap, Error>)
    ensures Reduce(a, b).Ok? == Reduce(b, a).Ok?
    ensures a.Ok? && b.Ok? && a.value.Keys !! b.value.Keys ==> Reduce(a, b) == Reduce(b, a)
  {
    if a.Ok? && b.Ok? && a.value.Keys !! b.value.Keys {
      assert a.value + b.value == b.value + a.value;
    }
  }

  /** The join is associative, so any reduction tree rayon builds gives the same result. */
  lemma ReduceAssociates(a: Result<CredentialMap, Error>, b: Result<CredentialMap, Error>, c: Result<CredentialMap, Error>)
    ensures Reduce(Reduce(a, b), c) == Reduce(a, Reduce(b, c))
  {
    if a.Ok? && b.Ok? && c.Ok? {
      assert (a.value + b.value) + c.value == a.value + (b.value + c.value);
    }
  }

  /** Position-free form of `AggregateUnique`: a profile of a unique-named
      selection is in the map under its name with its own credentials. */
  lemma AggregateAt(fetch: Fetcher, ps: seq<Profile>, p: Profile)
    requires Selection.UniqueNames(ps)
    requires Aggregate(fetch, ps).Ok?
    requires p in ps
    ensures p.name in Aggregate(fetch, ps).value
    ensures Aggregate(fetch, ps).value[p.name] == fetch(p).value
  {
    var i :| 0 <= i < |ps| && ps[i] == p;
    AggregateUnique(fetch, ps);
  }

  lemma SameElements(ps: seq<Profile>, qs: seq<Profile>)
    requires multiset(ps) == multiset(qs)
    ensures forall p :: p in ps <==> p in qs
    ensures Names(ps) == Names(qs)
  {
    forall p ensures p in ps <==> p in qs {
      assert p in ps <==> p in multiset(ps);
      assert p in qs <==> p in multiset(qs);
    }
    forall n | n in Names(ps) ensures n in Names(qs) {
      var i :| 0 <= i < |ps| && ps[i].name == n;
      assert ps[i] in qs;
    }
    forall n | n in Names(qs) ensures n in Names(ps) {
      var j :| 0 <= j < |qs| && qs[j].name == n;
      assert qs[j] in ps;
    }
  }

  /** Whether the aggregate succeeds depends only on which profiles are selected. */
  lemma SuccessBySet(fetch: Fetcher, ps: seq<Profile>, qs: seq<Profile>)
    requires forall p :: p in ps <==> p in qs
    ensures Aggregate(fetch, ps).Ok? == Aggregate(fetch, qs).Ok?
  {
    assert Aggregate(fetch, ps).Ok? <==> forall p :: p in ps ==> fetch(p).Ok?;
    assert Aggregate(fetch, qs).Ok? <==> forall p :: p in qs ==> fetch(p).Ok?;
  }

  /** With unique names, the aggregate does not depend on the order the profiles
      are processed in: any permutation succeeds or fails alike and, on success,
      gives the same map. */
  lemma OrderIndependent(fetch: Fetcher, ps: seq<Profile>, qs: seq<Profile>)
    requires multiset(ps) == multiset(qs)
    requires Selection.UniqueNames(ps) && Selection.UniqueNames(qs)
    ensures Aggregate(fetch, ps).Ok? == Aggregate(fetch, qs).Ok?
    ensures Aggregate(fetch, ps).Ok? ==> Aggregate(fetch, ps) == Aggregate(fetch, qs)
  {
    SameElements(ps, qs);
    SuccessBySet(fetch, ps, qs);
    if Aggregate(fetch, ps).Ok? {
      SameMap(fetch, ps, qs);
    }
  }

  lemma SameMap(fetch: Fetcher, ps: seq<Profile>, qs: seq<Profile>)
    requires forall p :: p in ps <==> p in qs
    requires Names(ps) == Names(qs)
    requires Selection.UniqueNames(ps) && Selection.UniqueNames(qs)
    requires Aggregate(fetch, ps).Ok? && Aggregate(fetch, qs).Ok?
    ensures Aggregate(fetch, ps).value == Aggregate(fetch, qs).value
  {
    var a := Aggregate(fetch, ps).value;
    var b := Aggregate(fetch, qs).value;
    forall n | n in a ensures a[n] == b[n] {
      var i :| 0 <= i < |ps| && ps[i].name == n;
      AggregateAt(fetch, ps, ps[i]);
      AggregateAt(fetch, qs, ps[i]);
    }
  }

  /** Only the selected profiles are fetched: fetchers that agree on them give the same aggregate. */
  lemma {:induction false} OnlySelectedFetched(f: Fetcher, g: Fetcher, ps: seq<Profile>, acc: CredentialMap)
    requires forall i :: 0 <= i < |ps| ==> f(ps[i]) == g(ps[i])
    ensures FoldFrom(f, ps, acc) == FoldFrom(g, ps, acc)
  {
    if |ps| > 0 && f(ps[0]).Ok? {
      OnlySelectedFetched(f, g, ps[1..], acc[ps[0].name := f(ps[0]).value]);
    }
  }
}
