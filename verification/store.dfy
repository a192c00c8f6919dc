/** Writing one organization's credentials into the credentials file's profiles. */
module StoreMerge {
  import opened Results
  import opened Types
  import Selection

  /** The store keys an organization's result names are written under. */
  function KeysFor(org: string, names: set<string>): (keys: set<string>)
    ensures forall n :: n in names ==> Selection.Key(org, n) in keys
  {
    set n | n in names :: Selection.Key(org, n)
  }

  lemma KeyNotWritten(org: string, names: set<string>, n: string)
    requires n !in names
    ensures Selection.Key(org, n) !in KeysFor(org, names)
  {
  }

  /** The loop over the organization's result map calling `set_profile_sts` on
      `<org>/<name>`. The map's iteration order is unspecified, so the next entry
      is an arbitrary one; `setSts` says whether the credentials file refuses an
      entry. */
  ghost function MergeOrg(setSts: (string, Credentials) -> Option<string>, store: Store,
                          org: string, creds: map<string, Credentials>): (r: Result<Store, Error>)
    ensures r.Ok? <==> forall n :: n in creds ==> setSts(Selection.Key(org, n), creds[n]).None?
    ensures r.Err? ==> r.error.Upstream? &&
                                   exists n :: n in creds && setSts(Selection.Key(org, n), creds[n]) == Some(r.error.message)
    ensures r.Ok? ==> r.value.Keys == store.Keys + KeysFor(org, creds.Keys)
    ensures r.Ok? ==> forall n :: n in creds ==> r.value[Selection.Key(org, n)] == creds[n]
    ensures r.Ok? ==> forall k :: k in store && k !in KeysFor(org, creds.Keys) ==> r.value[k] == store[k]
    decreases creds.Keys
  {
    if creds.Keys == {} then
      Ok(store)
    else
      var n :| n in creds.Keys;
      var key := Selection.Key(org, n);
      match setSts(key, creds[n])
      case Some(msg) => Err(Upstream(msg))
      case None =>
        var rest := creds - {n};
        var r := MergeOrg(setSts, store[key := creds[n]], org, rest);
        MergeStep(setSts, store, org, creds, n, r);
        r
  }

  /** The induction step of `MergeOrg`: writing entry `n` and then the rest
      meets the contract for the whole map. */
  lemma MergeStep(setSts: (string, Credentials) -> Option<string>, store: Store,
                  org: string, creds: map<string, Credentials>, n: string, r: Result<Store, Error>)
    requires n in creds && setSts(Selection.Key(org, n), creds[n]).None?
    requires var rest := creds - {n};
             var store' := store[Selection.Key(org, n) := creds[n]];
             && (r.Ok? <==> forall m :: m in rest ==> setSts(Selection.Key(org, m), rest[m]).None?)
             && (r.Err? ==> r.error.Upstream? &&
                                         exists m :: m in rest && setSts(Selection.Key(org, m), rest[m]) == Some(r.error.message))
             && (r.Ok? ==> r.value.Keys == store'.Keys + KeysFor(org, rest.Keys))
             && (r.Ok? ==> forall m :: m in rest ==> r.value[Selection.Key(org, m)] == rest[m])
             && (r.Ok? ==> forall k :: k in store' && k !in KeysFor(org, rest.Keys) ==> r.value[k] == store'[k])
    ensures r.Ok? <==> forall m :: m in creds ==> setSts(Selection.Key(org, m), creds[m]).None?
    ensures r.Err? ==> r.error.Upstream? &&
                                   exists m :: m in creds && setSts(Selection.Key(org, m), creds[m]) == Some(r.error.message)
    ensures r.Ok? ==> r.value.Keys == store.Keys + KeysFor(org, creds.Keys)
    ensures r.Ok? ==> forall m :: m in creds ==> r.value[Selection.Key(org, m)] == creds[m]
    ensures r.Ok? ==> forall k :: k in store && k !in KeysFor(org, creds.Keys) ==> r.value[k] == store[k]
  {
    var rest := creds - {n};
    var key := Selection.Key(org, n);
    KeyNotWritten(org, rest.Keys, n);
    assert KeysFor(org, creds.Keys) == {key} + KeysFor(org, rest.Keys);
  }
}
