/** The policy-address table of the DNS operations (contracts/logic-contract/src/dns_ops.rs). */
module Dns {
  import opened ProtocolTypes
  import opened Storage
  import opened Registry
  import opened Worlds
  import opened Steps

  // ---------------------------------------------------------------------------
  // Table keys
  // ---------------------------------------------------------------------------

  /** The longer domain swallows a NUL of the shorter pair's path. */
  ghost predicate Shifted(d: Bytes, p: Bytes, d': Bytes, p': Bytes) {
    exists r: Bytes :: d' == d + [0] + r && p == r + [0] + p'
  }

  lemma ShiftedCollides(d: Bytes, p: Bytes, d': Bytes, p': Bytes)
    requires Shifted(d, p, d', p')
    ensures PathText(d, p) == PathText(d', p')
  {
    var r: Bytes :| d' == d + [0] + r && p == r + [0] + p';
    assert d + [0] + (r + [0] + p') == d + [0] + r + [0] + p';
  }

  lemma LongerDomainIsShifted(d: Bytes, p: Bytes, d': Bytes, p': Bytes)
    requires PathText(d, p) == PathText(d', p') && |d| < |d'|
    ensures Shifted(d, p, d', p')
  {
    var t := PathText(d, p);
    var r := d'[|d| + 1..];
    assert d == t[..|d|] && d' == t[..|d'|];
    assert d'[|d|] == t[|d|] == 0;
    assert d' == d + [0] + r;
    assert p == t[|d| + 1..] && p' == t[|d'| + 1..];
    assert t[|d'|] == 0;
    assert p == r + [0] + p';
  }

  lemma SameDomainText(d: Bytes, p: Bytes, p': Bytes)
    requires PathText(d, p) == PathText(d, p')
    ensures p == p'
  {
    assert p == PathText(d, p)[|d| + 1..] && p' == PathText(d, p')[|d| + 1..];
  }

  /** Exactly when two (domain, path) pairs share a table key text. */
  lemma PathTextCollisions(d: Bytes, p: Bytes, d': Bytes, p': Bytes)
    ensures PathText(d, p) == PathText(d', p') <==>
              (d == d' && p == p') || Shifted(d, p, d', p') || Shifted(d', p', d, p)
  {
    if PathText(d, p) == PathText(d', p') {
      if |d| < |d'| {
        LongerDomainIsShifted(d, p, d', p');
      } else if |d'| < |d| {
        LongerDomainIsShifted(d', p', d, p);
      } else {
        assert d == PathText(d, p)[..|d|] && d' == PathText(d', p')[..|d'|];
        SameDomainText(d, p, p');
      }
    }
    if Shifted(d, p, d', p') {
      ShiftedCollides(d, p, d', p');
    }
    if Shifted(d', p', d, p) {
      ShiftedCollides(d', p', d, p);
    }
  }

  predicate NulFree(d: Bytes) {
    0 !in d
  }

  /** For NUL-free domains, which all domain names are, the key text determines domain and path. */
  lemma PathTextInjective(d: Bytes, p: Bytes, d': Bytes, p': Bytes)
    requires NulFree(d) && NulFree(d')
    requires PathText(d, p) == PathText(d', p')
    ensures d == d' && p == p'
  {
    PathTextCollisions(d, p, d', p');
  }

  /** The contract itself accepts domains with NUL bytes, and for those two pairs can collide. */
  lemma NulDomainsCollide()
    ensures ValidDomain([97]) && ValidDomain([97, 0, 98])
    ensures PathText([97], [98, 0, 99]) == PathText([97, 0, 98], [99])
  {
    assert PathText([97], [98, 0, 99]) == [97, 0, 98, 0, 99] == PathText([97, 0, 98], [99]);
  }

  // ---------------------------------------------------------------------------
  // Clearing
  // ---------------------------------------------------------------------------

  /** The keys of the first `n` listed paths. */
  ghost function Keys(x: Crypto, domain: Bytes, paths: seq<Bytes>, n: nat): set<B256>
    requires n <= |paths|
  {
    set i | 0 <= i < n :: PathKey(x, domain, paths[i])
  }

  /** The listed keys that hold something. */
  ghost function Occupied(x: Crypto, table: map<B256, B256>, domain: Bytes, paths: seq<Bytes>, n: nat): set<B256>
    requires n <= |paths|
  {
    set k | k in Keys(x, domain, paths, n) && Get(table, k, ZERO) != ZERO
  }

  lemma KeysNext(x: Crypto, domain: Bytes, paths: seq<Bytes>, n: nat)
    requires 0 < n <= |paths|
    ensures Keys(x, domain, paths, n) == Keys(x, domain, paths, n - 1) + {PathKey(x, domain, paths[n - 1])}
  {
    hide PathKey;
  }

  /** The loop zeroes the listed entries and no other. */
  lemma {:induction false} ClearedExactly(x: Crypto, table: map<B256, B256>, domain: Bytes, paths: seq<Bytes>, n: nat,
                                          key: B256)
    requires n <= |paths|
    ensures Get(Cleared(x, table, domain, paths, n), key, ZERO)
            == if key in Keys(x, domain, paths, n) then ZERO else Get(table, key, ZERO)
  {
    hide PathKey;
    if n > 0 {
      ClearedExactly(x, table, domain, paths, n - 1, key);
      KeysNext(x, domain, paths, n);
    }
  }

  /** The reported count is the number of different listed keys that held something. */
  lemma {:induction false} ClearedCounts(x: Crypto, table: map<B256, B256>, domain: Bytes, paths: seq<Bytes>, n: nat)
    requires n <= |paths|
    ensures ClearedCount(x, table, domain, paths, n) == |Occupied(x, table, domain, paths, n)|
  {
    hide PathKey;
    if n == 0 {
      assert Occupied(x, table, domain, paths, 0) == {};
    } else {
      var key := PathKey(x, domain, paths[n - 1]);
      ClearedCounts(x, table, domain, paths, n - 1);
      ClearedExactly(x, table, domain, paths, n - 1, key);
      KeysNext(x, domain, paths, n);
      var before, now := Occupied(x, table, domain, paths, n - 1), Occupied(x, table, domain, paths, n);
      if key !in before && Get(table, key, ZERO) != ZERO {
        assert now == before + {key};
      } else {
        assert now == before;
      }
    }
  }

  ghost predicate InjectiveKeccak(x: Crypto) {
    forall a: Bytes, b: Bytes :: x.keccak(a) == x.keccak(b) ==> a == b
  }

  /** The different listed paths whose entry was set. */
  ghost function OccupiedPaths(x: Crypto, table: map<B256, B256>, domain: Bytes, paths: seq<Bytes>): set<Bytes> {
    set p | p in paths && Get(table, PathKey(x, domain, p), ZERO) != ZERO
  }

  lemma {:induction false} ImageSize(x: Crypto, domain: Bytes, ps: set<Bytes>)
    requires InjectiveKeccak(x)
    ensures |set p | p in ps :: PathKey(x, domain, p)| == |ps|
    decreases |ps|
  {
    var image := set p | p in ps :: PathKey(x, domain, p);
    if ps == {} {
      assert image == {};
    } else {
      var p :| p in ps;
      ImageSize(x, domain, ps - {p});
      var rest := set q | q in ps - {p} :: PathKey(x, domain, q);
      assert image == rest + {PathKey(x, domain, p)};
      forall q | q in ps - {p} ensures PathKey(x, domain, q) != PathKey(x, domain, p) {
        if PathKey(x, domain, q) == PathKey(x, domain, p) {
          SameDomainText(domain, q, p);
        }
      }
    }
  }

  /** With a collision-free hash, the count is the number of different listed paths that were set. */
  lemma ClearedCountsPaths(x: Crypto, table: map<B256, B256>, domain: Bytes, paths: seq<Bytes>)
    requires InjectiveKeccak(x)
    ensures ClearedCount(x, table, domain, paths, |paths|) == |OccupiedPaths(x, table, domain, paths)|
  {
    hide PathKey;
    hide InjectiveKeccak;
    ClearedCounts(x, table, domain, paths, |paths|);
    var ps := OccupiedPaths(x, table, domain, paths);
    ImageSize(x, domain, ps);
    var image := set p | p in ps :: PathKey(x, domain, p);
    forall k | k in image ensures k in Occupied(x, table, domain, paths, |paths|) {
      var p :| p in ps && PathKey(x, domain, p) == k;
      var i :| 0 <= i < |paths| && paths[i] == p;
      assert PathKey(x, domain, paths[i]) == k;
    }
    forall k | k in Occupied(x, table, domain, paths, |paths|) ensures k in image {
      var i :| 0 <= i < |paths| && PathKey(x, domain, paths[i]) == k;
      assert paths[i] in ps;
    }
    assert image == Occupied(x, table, domain, paths, |paths|);
  }

  // ---------------------------------------------------------------------------
  // The table over runs
  // ---------------------------------------------------------------------------

  /** The call is one that writes the entry of (domain, path). */
  predicate Writes(c: Call, domain: Bytes, path: Bytes) {
    match c
    case SetPath(d, p, _, _, _, _) => d == domain && p == path
    case RemovePath(d, p, _, _, _) => d == domain && p == path
    case GovernanceSetPath(d, p, _, _) => d == domain && p == path
    case ClearDomainEntries(d, ps, _) => d == domain && path in ps
    case _ => false
  }

  predicate TargetsNulFree(c: Call) {
    match c
    case SetPath(d, _, _, _, _, _) => NulFree(d)
    case RemovePath(d, _, _, _, _) => NulFree(d)
    case GovernanceSetPath(d, _, _, _) => NulFree(d)
    case ClearDomainEntries(d, _, _) => NulFree(d)
    case _ => true
  }

  lemma PolicyTable(w: World, en: Entry)
    requires Follows(w, en)
    ensures en.gated.policyAddresses == w.store.policyAddresses && en.gated.cards == w.store.cards
    ensures en.after.store.policyAddresses == PolicyAddressesAfter(w.crypto, en.gated, en.call)
    ensures en.env.crypto == w.crypto
  {
    hide Admit;
    GatedFrame(w, en);
    hide LogicAfter;
    hide EventsOf;
    hide PolicyAddressesAfter;
  }

  lemma KeysDiffer(x: Crypto, d: Bytes, p: Bytes, d': Bytes, p': Bytes)
    requires InjectiveKeccak(x) && NulFree(d) && NulFree(d') && (d != d' || p != p')
    ensures PathKey(x, d, p) != PathKey(x, d', p')
  {
    if PathText(d, p) == PathText(d', p') {
      PathTextInjective(d, p, d', p');
    }
  }

  /** Non-interference: an accepted call leaves every entry alone that it does not name. */
  lemma OtherEntriesUntouched(w: World, en: Entry, domain: Bytes, path: Bytes)
    requires Follows(w, en) && InjectiveKeccak(w.crypto)
    requires NulFree(domain) && TargetsNulFree(en.call) && !Writes(en.call, domain, path)
    ensures en.after.store.PolicyAddress(PathKey(w.crypto, domain, path))
            == w.store.PolicyAddress(PathKey(w.crypto, domain, path))
  {
    hide Admit;
    hide Follows;
    hide PathKey;
    hide InjectiveKeccak;
    hide NulFree;
    PolicyTable(w, en);
    var c, key := en.call, PathKey(w.crypto, domain, path);
    if c.SetPath? || c.RemovePath? || c.GovernanceSetPath? {
      KeysDiffer(w.crypto, domain, path, c.domain, c.path);
    } else if c.ClearDomainEntries? {
      ClearedExactly(w.crypto, w.store.policyAddresses, c.domain, c.paths, |c.paths|, key);
      forall i | 0 <= i < |c.paths| ensures PathKey(w.crypto, c.domain, c.paths[i]) != key {
        KeysDiffer(w.crypto, domain, path, c.domain, c.paths[i]);
      }
    }
  }

  /** Every set entry names a card that exists. */
  ghost predicate NamesCards(s: Store) {
    forall k :: k in s.policyAddresses && s.policyAddresses[k] != ZERO ==> s.policyAddresses[k] in s.cards
  }

  lemma NamesCardsStep(w: World, en: Entry)
    requires Follows(w, en) && CardsExist(w.store) && NamesCards(w.store)
    ensures NamesCards(en.after.store)
  {
    hide Admit;
    hide Follows;
    hide CardPreCheck;
    hide GovernancePreCheck;
    hide PathKey;
    PolicyTable(w, en);
    CardsStep(w, en);
    hide CardsExist;
    var c, s, t := en.call, w.store, en.after.store;
    if c.SetPath? || c.GovernanceSetPath? {
      TargetExists(w, en);
    } else if c.ClearDomainEntries? {
      forall k | k in t.policyAddresses && t.policyAddresses[k] != ZERO ensures t.policyAddresses[k] in t.cards {
        ClearedExactly(w.crypto, s.policyAddresses, c.domain, c.paths, |c.paths|, k);
      }
    }
  }

  lemma TargetExists(w: World, en: Entry)
    requires Follows(w, en) && (en.call.SetPath? || en.call.GovernanceSetPath?)
    ensures en.call.policyCard != ZERO ==> en.call.policyCard in w.store.cards
  {
    hide Admit;
    hide Follows;
    hide CardPreCheck;
    hide GovernancePreCheck;
    Checks(w, en);
    PolicyTable(w, en);
  }

  /** Table integrity: in every reachable state, every set entry names an existing card. */
  lemma {:induction false} NamesCardsAlways(t: Trace)
    requires Valid(t)
    ensures NamesCards(End(t).store)
  {
    hide Admit;
    hide Follows;
    hide Step;
    if t.Then? {
      var en := LastStep(t);
      NamesCardsAlways(t.prev);
      if en.Some? {
        CardsExistAlways(t.prev);
        NamesCardsStep(End(t.prev), en.value);
      }
    }
  }
}
