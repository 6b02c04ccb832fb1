/** The shared snapshot cache: write-once, bounded, and every captured snapshot is either
    installed or deleted. */
module Snapshots {
  import opened Seuss

  const SNAPMAP_LIMIT := 32768  // default_snapmap_limit

  type Cache = map<Fid, Snap>

  predicate Full(m: Cache) {
    |m| >= SNAPMAP_LIMIT
  }

  /** `SetSnapshot` keeps the snapshot when nothing is cached for the function and there is room;
      otherwise it deletes the snapshot it was given. */
  predicate Installs(m: Cache, fid: Fid) {
    fid !in m && !Full(m)
  }

  /** `origin` records the function whose code each captured snapshot holds, `deleted` how often
      each snapshot was deleted. */
  datatype Store = Store(cache: Cache, origin: map<Snap, Fid>, deleted: multiset<Snap>)

  const EMPTY := Store(map[], map[], multiset{})

  /** A freshly captured snapshot `sv` of an instance of function `fn` is offered under `fid`. */
  function Offer(s: Store, fid: Fid, sv: Snap, fn: Fid): Store {
    var s' := s.(origin := s.origin[sv := fn]);
    if Installs(s.cache, fid) then s'.(cache := s.cache[fid := sv])
    else s'.(deleted := s.deleted + multiset{sv})
  }

  predicate Installed(s: Store, sv: Snap) {
    sv in s.origin && s.origin[sv] in s.cache && s.cache[s.origin[sv]] == sv
  }

  ghost predicate Inv(s: Store) {
    && |s.cache| <= SNAPMAP_LIMIT
    && (forall f | f in s.cache :: s.cache[f] in s.origin && s.origin[s.cache[f]] == f)
    && (forall sv :: s.deleted[sv] == if sv in s.origin && !Installed(s, sv) then 1 else 0)
  }

  /** The second store is a later one: what was installed or deleted stays so. */
  ghost predicate Extends(s: Store, s': Store) {
    && (forall f | f in s.cache :: f in s'.cache && s'.cache[f] == s.cache[f])
    && (forall sv | sv in s.origin :: sv in s'.origin && s'.deleted[sv] == s.deleted[sv])
  }

  /** An offer decides about the offered snapshot and leaves all others as they are. */
  lemma OfferDecides(s: Store, fid: Fid, sv: Snap, x: Snap)
    requires Inv(s) && sv !in s.origin
    ensures Installed(Offer(s, fid, sv, fid), x) == if x == sv then Installs(s.cache, fid) else Installed(s, x)
  {
  }

  lemma OfferDeletes(s: Store, fid: Fid, sv: Snap, x: Snap)
    requires Inv(s) && sv !in s.origin
    ensures var s' := Offer(s, fid, sv, fid);
      s'.deleted[x] == if x in s'.origin && !Installed(s', x) then 1 else 0
  {
    hide Installed;
    OfferDecides(s, fid, sv, x);
  }

  lemma OfferExtends(s: Store, fid: Fid, sv: Snap)
    requires sv !in s.origin && |s.cache| <= SNAPMAP_LIMIT
    ensures Extends(s, Offer(s, fid, sv, fid)) && |Offer(s, fid, sv, fid).cache| <= SNAPMAP_LIMIT
  {
  }

  lemma OfferInv(s: Store, fid: Fid, sv: Snap)
    requires Inv(s) && sv !in s.origin
    ensures Inv(Offer(s, fid, sv, fid)) && Extends(s, Offer(s, fid, sv, fid))
    ensures Installed(Offer(s, fid, sv, fid), sv) <==> Installs(s.cache, fid)
  {
    hide Installed, Extends;
    OfferExtends(s, fid, sv);
    OfferDecides(s, fid, sv, sv);
    var s' := Offer(s, fid, sv, fid);
    forall x ensures s'.deleted[x] == if x in s'.origin && !Installed(s', x) then 1 else 0 {
      OfferDeletes(s, fid, sv, x);
    }
  }

  /** A snapshot is kept exactly when its function has none and fewer than 32768 are cached; else it
      is deleted. Other entries stay. */
  lemma KeptExactlyWhen(s: Store, fid: Fid, sv: Snap)
    requires Inv(s) && sv !in s.origin
    ensures var s' := Offer(s, fid, sv, fid); var keep := fid !in s.cache && |s.cache| < 32768;
      && s'.cache == (if keep then s.cache[fid := sv] else s.cache)
      && s'.deleted == (if keep then s.deleted else s.deleted + multiset{sv})
      && s'.origin == s.origin[sv := fid]
  {
  }
}
