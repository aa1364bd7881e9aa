/**
 * What the store-domain backfill does to each row, on the columns: how hostnames are read and derived,
 * what every step inserts or changes and counts, when the script throws and when its result passes.
 */
module DomainBackfillOutcomes {
  import opened Prelude
  import opened DomainRows
  import opened PlatformHostnames
  import opened DomainBackfill

  // ---------------------------------------------------------------------------------------------
  // Hostnames
  // ---------------------------------------------------------------------------------------------

  predicate AllBlank(s: string) {
    forall i :: 0 <= i < |s| ==> s[i] in " \t\n\r"
  }

  /** `t` is `s` without the white space around it. */
  ghost predicate Stripped(s: string, t: string) {
    exists i, j :: 0 <= i <= j <= |s| && t == s[i..j] && AllBlank(s[..i]) && AllBlank(s[j..])
                   && (t != "" ==> t[0] !in " \t\n\r" && t[|t| - 1] !in " \t\n\r")
  }

  /** `t` is `s` with A to Z in lower case. */
  ghost predicate InLowerCase(s: string, t: string) {
    |t| == |s| && forall i :: 0 <= i < |s| ==> t[i] == if 'A' <= s[i] <= 'Z' then (s[i] as int + 32) as char else s[i]
  }

  lemma {:induction false} TrimStartStrips(s: string) returns (i: nat)
    ensures i <= |s| && TrimStart(s) == s[i..] && AllBlank(s[..i])
  {
    i := 0;
    if s != "" && IsSpace(s[0]) {
      var k := TrimStartStrips(s[1..]);
      i := k + 1;
      assert s[..i] == [s[0]] + s[1..][..k] && s[i..] == s[1..][k..];
    } else {
      assert s[0..] == s;
    }
  }

  lemma {:induction false} TrimEndStrips(s: string) returns (j: nat)
    ensures j <= |s| && TrimEnd(s) == s[..j] && AllBlank(s[j..])
    ensures j > 0 ==> s[j - 1] !in " \t\n\r"
  {
    j := |s|;
    if s != "" && IsSpace(s[|s| - 1]) {
      j := TrimEndStrips(s[..|s| - 1]);
      assert s[j..] == s[..|s| - 1][j..] + [s[|s| - 1]] && s[..j] == s[..|s| - 1][..j];
    } else {
      assert s[..|s|] == s;
    }
  }

  lemma TrimStrips(s: string)
    ensures Stripped(s, Trim(s))
  {
    var i := TrimStartStrips(s);
    var t := TrimStart(s);
    TrimStartEnds(s);
    var n := TrimEndStrips(t);
    TrimEndKeepsStart(t);
    var j := i + n;
    assert Trim(s) == t[..n] == s[i..j] && s[j..] == t[n..];
  }

  lemma LowerLowers(s: string)
    ensures InLowerCase(s, Lower(s))
  {
  }

  /** A hostname is read without the white space around it, in lower case and without a final dot; it
      is the platform's if that is the platform's domain or ends in a dot and it. */
  lemma UnderPlatformExactly(hostname: string, platform: string)
    ensures exists stripped, low ::
      && Stripped(hostname, stripped) && InLowerCase(stripped, low)
      && (var read := if low != "" && low[|low| - 1] == '.' then low[..|low| - 1] else low;
          IsUnderPlatformDomain(hostname, platform) <==>
          read == platform || (|read| > |platform| && read[|read| - |platform| - 1] == '.' && read[|read| - |platform|..] == platform))
  {
    TrimStrips(hostname);
    LowerLowers(Trim(hostname));
    var stripped, low := Trim(hostname), Lower(Trim(hostname));
    hide Trim, Lower, Stripped, InLowerCase;
    var read := Normal(hostname);
    var tail := "." + platform;
    if |read| > |platform| {
      assert read[|read| - |tail|..] == [read[|read| - |platform| - 1]] + read[|read| - |platform|..];
      assert tail[0] == '.' && tail[1..] == platform;
    }
    assert Stripped(hostname, stripped) && InLowerCase(stripped, low);
  }

  /** A store's hostname is its slug, stripped and in lower case, before a dot and the platform's domain. */
  lemma DerivedExactly(slug: string, platform: string)
    ensures exists stripped, low ::
      Stripped(slug, stripped) && InLowerCase(stripped, low) && DerivePlatformHostname(slug, platform) == low + "." + platform
  {
    TrimStrips(slug);
    LowerLowers(Trim(slug));
    hide Trim, Lower, Stripped, InLowerCase;
    assert Stripped(slug, Trim(slug)) && InLowerCase(Trim(slug), Lower(Trim(slug)));
  }

  // ---------------------------------------------------------------------------------------------
  // B-1 and B-2
  // ---------------------------------------------------------------------------------------------

  /** The row is, or will be classified as, a platform row of store `s`. */
  predicate CountsAsPlatform(d: Domain, platform: string, s: nat) {
    d.store == s && match d.kind case Some(k) => k == PlatformSubdomain case None => IsUnderPlatformDomain(d.hostname, platform)
  }

  lemma {:induction false} UntypedCounted(domains: seq<Domain>)
    ensures CountUntyped(domains) == |set i | 0 <= i < |domains| && domains[i].kind.None?|
  {
    var all := set i | 0 <= i < |domains| && domains[i].kind.None?;
    if domains == [] {
      assert all == {};
    } else {
      var n := |domains| - 1;
      UntypedCounted(domains[..n]);
      assert all == (set i | 0 <= i < n && domains[..n][i].kind.None?) + if domains[n].kind.None? then {n} else {};
    }
  }

  /** B-1 gives the rows without a type one, by their hostnames, and leaves everything else. */
  lemma ClassifiesExactly(db: Db, platform: string)
    ensures
      var d := B1(db, platform);
      && d == db.(domains := d.domains) && |d.domains| == |db.domains|
      && (forall i :: 0 <= i < |db.domains| ==>
            d.domains[i] == match db.domains[i].kind
                            case Some(_) => db.domains[i]
                            case None => db.domains[i].(kind := Some(if IsUnderPlatformDomain(db.domains[i].hostname, platform) then PlatformSubdomain else Custom)))
      && CountUntyped(db.domains) == |set i | 0 <= i < |db.domains| && db.domains[i].kind.None?|
  {
    hide IsUnderPlatformDomain;
    UntypedCounted(db.domains);
  }

  lemma PlatformRowAfterB1(db: Db, platform: string, s: nat)
    ensures HasPlatformRow(B1(db, platform), s) <==> exists i :: 0 <= i < |db.domains| && CountsAsPlatform(db.domains[i], platform, s)
  {
    hide IsUnderPlatformDomain, ClassifyAll;
    var d := B1(db, platform);
    assert forall i :: 0 <= i < |db.domains| ==>
      (CountsAsPlatform(db.domains[i], platform, s) <==> d.domains[i].store == s && d.domains[i].kind == Some(PlatformSubdomain));
    if i :| 0 <= i < |db.domains| && CountsAsPlatform(db.domains[i], platform, s) {
      assert d.domains[i].store == s && d.domains[i].kind == Some(PlatformSubdomain);
    }
  }

  predicate PlatformRowIn(domains: seq<Domain>, s: nat) {
    exists i :: 0 <= i < |domains| && domains[i].store == s && domains[i].kind == Some(PlatformSubdomain)
  }

  predicate PrimaryRowIn(domains: seq<Domain>, s: nat) {
    exists i :: 0 <= i < |domains| && domains[i].store == s && domains[i].isPrimary
  }

  /** The row B-2 inserts for a store. */
  ghost predicate IsProvisioned(before: seq<Domain>, stores: seq<Store>, platform: string, row: Domain) {
    && row.store < |stores| && !PlatformRowIn(before, row.store)
    && row.tenant == stores[row.store].tenant && row.hostname == DerivePlatformHostname(stores[row.store].slug, platform)
    && (row.isPrimary <==> !PrimaryRowIn(before, row.store))
    && row.kind == Some(PlatformSubdomain) && row.status == Verified && row.tls == None
  }

  ghost function Unprovisioned(d: Db, n: nat): set<nat> {
    set s: nat | s < n && !PlatformRowIn(d.domains, s)
  }

  /** The first `n` stores have been provisioned: every row is kept; each new one is a row as above; a
      store still without a platform row found its hostname at another store. */
  ghost predicate Provisions(db: Db, d: Db, platform: string, n: nat)
    requires n <= |db.stores|
  {
    && d == db.(domains := d.domains) && db.domains <= d.domains
    && (forall i :: |db.domains| <= i < |d.domains| ==> d.domains[i].store < n && IsProvisioned(db.domains, db.stores, platform, d.domains[i]))
    && (forall s: nat :: s < n && !PlatformRowIn(d.domains, s) ==> NameHeldElsewhere(d.domains, db.stores, platform, s))
  }

  /** A row of another store has the hostname this store is to get. */
  ghost predicate NameHeldElsewhere(domains: seq<Domain>, stores: seq<Store>, platform: string, s: nat)
    requires s < |stores|
  {
    exists i :: 0 <= i < |domains| && domains[i].store != s && domains[i].hostname == DerivePlatformHostname(stores[s].slug, platform)
  }

  /** B-2 for the first `n` stores; it counts the rows it inserts, and the stores left without. */
  lemma {:induction false} ProvisionsExactly(db: Db, platform: string, n: nat)
    requires Wf(db) && AllTyped(db.domains) && n <= |db.stores| && B2(db, platform, n).Commit?
    ensures
      var d, r := B2(db, platform, n).db, B2(db, platform, n).value;
      Provisions(db, d, platform, n) && r == Report(|d.domains| - |db.domains|, |Unprovisioned(d, n)|)
  {
    hide *;
    if n == 0 {
      ProvisionsNone(db, platform);
    } else {
      B2Next(db, platform, n);
      ProvisionsExactly(db, platform, n - 1);
      var d := B2(db, platform, n - 1).db;
      ProvisionsKeep(db, d, platform, n - 1);
      ProvisionsNext(db, d, platform, n - 1);
    }
  }

  lemma ProvisionsNone(db: Db, platform: string)
    ensures B2(db, platform, 0) == Commit(db, Report(0, 0)) && Provisions(db, db, platform, 0) && |Unprovisioned(db, 0)| == 0
  {
    assert Unprovisioned(db, 0) == {};
  }

  lemma ProvisionsKeep(db: Db, d: Db, platform: string, n: nat)
    requires n <= |db.stores| && Provisions(db, d, platform, n)
    ensures d == db.(domains := d.domains) && db.domains <= d.domains
  {
  }

  lemma B2Next(db: Db, platform: string, n: nat)
    requires 0 < n <= |db.stores| && B2(db, platform, n).Commit?
    ensures B2(db, platform, n - 1).Commit? && B2(db, platform, n - 1).db.stores == db.stores
    ensures
      var d, r := B2(db, platform, n - 1).db, B2(db, platform, n - 1).value;
      var p := ProvisionOf(d, platform, n - 1);
      && !p.Clash?
      && B2(db, platform, n).db == d.(domains := if p.Inserts? then d.domains + [p.row] else d.domains)
      && B2(db, platform, n).value == Report(r.affected + (if p.Inserts? then 1 else 0), r.anomalies + if p.Collision? then 1 else 0)
  {
    hide ProvisionOf;
  }

  /** What one more store changes: whose platform rows there are, and who is left without. */
  lemma OneMorePlatformRow(d: Db, platform: string, s: nat, t: nat)
    requires s < |d.stores|
    ensures
      var p := ProvisionOf(d, platform, s);
      var domains := if p.Inserts? then d.domains + [p.row] else d.domains;
      && (PlatformRowIn(domains, t) <==> PlatformRowIn(d.domains, t) || (p.Inserts? && t == s))
      && (PlatformRowIn(d.domains, s) <==> p.AlreadyThere?)
  {
    hide DerivePlatformHostname, HasPrimaryRow, Holder;
    var p := ProvisionOf(d, platform, s);
    if p.Inserts? {
      AppendPrimary(d, p.row, t);
    }
  }

  lemma CollidesWith(d: Db, platform: string, s: nat)
    requires s < |d.stores| && ProvisionOf(d, platform, s).Collision?
    ensures NameHeldElsewhere(d.domains, d.stores, platform, s)
  {
    hide DerivePlatformHostname, HasPrimaryRow, HasPlatformRow;
  }

  lemma NameStaysHeld(before: seq<Domain>, after: seq<Domain>, stores: seq<Store>, platform: string, s: nat)
    requires s < |stores| && before <= after && NameHeldElsewhere(before, stores, platform, s)
    ensures NameHeldElsewhere(after, stores, platform, s)
  {
    hide DerivePlatformHostname;
    var i :| 0 <= i < |before| && before[i].store != s && before[i].hostname == DerivePlatformHostname(stores[s].slug, platform);
    assert after[i] == before[i];
  }

  lemma ProvisionsNext(db: Db, d: Db, platform: string, s: nat)
    requires s < |db.stores| && d == db.(domains := d.domains) && db.domains <= d.domains
    requires Provisions(db, d, platform, s) && !ProvisionOf(d, platform, s).Clash?
    ensures
      var p := ProvisionOf(d, platform, s);
      var domains := if p.Inserts? then d.domains + [p.row] else d.domains;
      && Provisions(db, d.(domains := domains), platform, s + 1)
      && |Unprovisioned(d.(domains := domains), s + 1)| == |Unprovisioned(d, s)| + if p.Collision? then 1 else 0
  {
    var p := ProvisionOf(d, platform, s);
    var domains := if p.Inserts? then d.domains + [p.row] else d.domains;
    hide PlatformRowIn, ProvisionOf, IsProvisioned, DerivePlatformHostname, Unprovisioned, NameHeldElsewhere;
    NewRowIs(db, d, platform, s);
    OneFewerLeft(d, platform, s);
    forall t: nat | t < s + 1 && !PlatformRowIn(domains, t)
      ensures NameHeldElsewhere(domains, db.stores, platform, t)
    {
      OneMorePlatformRow(d, platform, s, t);
      if t == s {
        CollidesWith(d, platform, s);
      }
      NameStaysHeld(d.domains, domains, db.stores, platform, t);
    }
  }

  lemma OneFewerLeft(d: Db, platform: string, s: nat)
    requires s < |d.stores| && !ProvisionOf(d, platform, s).Clash?
    ensures
      var p := ProvisionOf(d, platform, s);
      var domains := if p.Inserts? then d.domains + [p.row] else d.domains;
      |Unprovisioned(d.(domains := domains), s + 1)| == |Unprovisioned(d, s)| + if p.Collision? then 1 else 0
  {
    hide PlatformRowIn, ProvisionOf;
    var p := ProvisionOf(d, platform, s);
    var domains := if p.Inserts? then d.domains + [p.row] else d.domains;
    forall t: nat
      ensures PlatformRowIn(domains, t) <==> PlatformRowIn(d.domains, t) || (p.Inserts? && t == s)
      ensures PlatformRowIn(d.domains, s) <==> p.AlreadyThere?
    {
      OneMorePlatformRow(d, platform, s, t);
    }
    assert Unprovisioned(d.(domains := domains), s + 1) == Unprovisioned(d, s) + if p.Collision? then {s} else {};
  }

  lemma NewRowIs(db: Db, d: Db, platform: string, s: nat)
    requires s < |db.stores| && d == db.(domains := d.domains) && db.domains <= d.domains
    requires forall i :: |db.domains| <= i < |d.domains| ==> d.domains[i].store < s
    ensures
      var p := ProvisionOf(d, platform, s);
      p.Inserts? ==> p.row.store == s && IsProvisioned(db.domains, db.stores, platform, p.row)
  {
    hide DerivePlatformHostname;
    assert forall i :: 0 <= i < |db.domains| ==> d.domains[i] == db.domains[i];
  }

  // ---------------------------------------------------------------------------------------------
  // B-3
  // ---------------------------------------------------------------------------------------------

  /** B-3. Without a primary store of the tenant, or with the name at another store, it only reports.
      Otherwise the tenant's own name ends as the one primary row of that store: a new verified custom
      row with its certificate, or the row that was there. */
  lemma RegistersExactly(db: Db, tenant: nat)
    requires Wf(db) && (forall a, b :: 0 <= a < b < |db.stores| ==>
      !(db.stores[a].tenant == tenant && db.stores[b].tenant == tenant && db.stores[a].isPrimary && db.stores[b].isPrimary))
    ensures
      var (d, r) := B3(db, tenant);
      var host := "www.printforge.world";
      && (forall s: nat :: s < |db.stores| && db.stores[s].tenant == tenant && db.stores[s].isPrimary ==>
            if exists i :: 0 <= i < |db.domains| && db.domains[i].hostname == host && db.domains[i].store != s then d == db && r == Report(0, 1)
            else if exists i :: 0 <= i < |db.domains| && db.domains[i].hostname == host && db.domains[i].isPrimary then d == db && r == Report(0, 0)
            else
              && r == Report(1, 0) && d == db.(domains := d.domains)
              && |d.domains| == |db.domains| + (if exists i :: 0 <= i < |db.domains| && db.domains[i].hostname == host then 0 else 1)
              && (forall i :: 0 <= i < |db.domains| ==>
                    d.domains[i] == if db.domains[i].hostname == host then db.domains[i].(isPrimary := true)
                                    else if db.domains[i].store == s then db.domains[i].(isPrimary := false)
                                    else db.domains[i])
              && (forall i :: |db.domains| <= i < |d.domains| ==>
                    d.domains[i] == Domain(s, tenant, host, true, Some(Custom), Verified, Some(Issued))))
      && ((forall s: nat :: s < |db.stores| ==> !(db.stores[s].tenant == tenant && db.stores[s].isPrimary)) ==> d == db && r == Report(0, 1))
  {
    hide DemoteAll;
    var host := "www.printforge.world";
    forall s: nat | s < |db.stores| && db.stores[s].tenant == tenant && db.stores[s].isPrimary
      ensures PrimaryStore(db.stores, tenant) == Some(s)
    {
      var found := PrimaryStore(db.stores, tenant);
      assert found.Some? && !(found.value < s) && !(s < found.value);
    }
    forall i | 0 <= i < |db.domains| && db.domains[i].hostname == host
      ensures Holder(db.domains, host) == Some(i)
    {
      HolderIs(db.domains, i);
    }
    hide Wf, DistinctHostnames;
  }

  // ---------------------------------------------------------------------------------------------
  // The script
  // ---------------------------------------------------------------------------------------------

  /** A complete run is the steps above in order, then the resolution mode, which stays if it is set;
      its report adds up theirs. */
  lemma RunsExactly(db: Db, tenant: nat, platform: string)
    requires RunAll(db, tenant, platform).Commit?
    ensures
      var d1 := B1(db, platform);
      var r2 := B2(d1, platform, |db.stores|);
      r2.Commit? &&
      var (d3, r3) := B3(r2.db, tenant);
      var r := RunAll(db, tenant, platform);
      && r.db == d3.(mode := Some(match db.mode case Some(m) => m case None => "legacy"))
      && r.value.affected == |set i | 0 <= i < |db.domains| && db.domains[i].kind.None?| + r2.value.affected + r3.affected + (if db.mode.None? then 1 else 0)
      && r.value.anomalies == r2.value.anomalies + r3.anomalies + (if db.mode.Some? && db.mode.value != "legacy" then 1 else 0)
  {
    UntypedCounted(db.domains);
    B1Stores(db, platform);
    hide B1, B2, B3, CountUntyped;
    ModeKept(db, tenant, platform);
  }

  lemma ModeKept(db: Db, tenant: nat, platform: string)
    requires B2(B1(db, platform), platform, |B1(db, platform).stores|).Commit?
    ensures B3(B2(B1(db, platform), platform, |B1(db, platform).stores|).db, tenant).0.mode == db.mode
  {
    var d1 := B1(db, platform);
    assert d1.mode == db.mode;
    hide B1;
    B2Mode(d1, platform, |d1.stores|);
  }

  lemma {:induction false} B2Mode(db: Db, platform: string, n: nat)
    requires n <= |db.stores| && B2(db, platform, n).Commit?
    ensures B2(db, platform, n).db.mode == db.mode
  {
    hide ProvisionOf;
    if n > 0 {
      B2Mode(db, platform, n - 1);
    }
  }

  /** The script throws exactly when some store without a platform row, or one that will count as such,
      has a row under the hostname it is to get. */
  lemma ThrowsExactly(db: Db, tenant: nat, platform: string)
    requires Wf(db)
    ensures
      RunAll(db, tenant, platform).Rollback? <==>
      exists s: nat, i :: s < |db.stores| && 0 <= i < |db.domains| && db.domains[i].store == s
                     && db.domains[i].hostname == DerivePlatformHostname(db.stores[s].slug, platform)
                     && forall k :: 0 <= k < |db.domains| ==> !CountsAsPlatform(db.domains[k], platform, s)
  {
    hide RunAll, Wf, HasPlatformRow, CountsAsPlatform, DerivePlatformHostname, IsUnderPlatformDomain, ClassifyAll;
    ThrowsIff(db, tenant, platform);
    var d := B1(db, platform);
    forall s: nat | s < |db.stores|
      ensures HasPlatformRow(d, s) <==> exists k :: 0 <= k < |db.domains| && CountsAsPlatform(db.domains[k], platform, s)
    {
      PlatformRowAfterB1(db, platform, s);
    }
    assert forall i :: 0 <= i < |db.domains| ==> d.domains[i].store == db.domains[i].store && d.domains[i].hostname == db.domains[i].hostname;
    if s: nat :| s < |db.stores| && HoldsOwnName(d, platform, s) {
      var i :| 0 <= i < |d.domains| && d.domains[i].store == s && d.domains[i].hostname == DerivePlatformHostname(d.stores[s].slug, platform);
      assert db.domains[i].store == s;
    }
    if s: nat, i :| s < |db.stores| && 0 <= i < |db.domains| && db.domains[i].store == s
                    && db.domains[i].hostname == DerivePlatformHostname(db.stores[s].slug, platform)
                    && forall k :: 0 <= k < |db.domains| ==> !CountsAsPlatform(db.domains[k], platform, s) {
      assert d.domains[i].store == s;
      assert HoldsOwnName(d, platform, s);
    }
  }

  ghost function PrimaryRows(domains: seq<Domain>, s: nat): set<nat> {
    set i | 0 <= i < |domains| && domains[i].store == s && domains[i].isPrimary
  }

  lemma PrimaryRowsOfPrefix(domains: seq<Domain>, s: nat)
    requires domains != []
    ensures
      var n := |domains| - 1;
      var before := PrimaryRows(domains[..n], s);
      && n !in before
      && PrimaryRows(domains, s) == before + if domains[n].store == s && domains[n].isPrimary then {n} else {}
  {
  }

  lemma {:induction false} PrimariesCounted(domains: seq<Domain>, s: nat)
    ensures CountPrimary(domains, s) == |PrimaryRows(domains, s)|
  {
    if domains == [] {
      assert PrimaryRows(domains, s) == {};
    } else {
      hide PrimaryRows;
      PrimariesCounted(domains[..|domains| - 1], s);
      PrimaryRowsOfPrefix(domains, s);
    }
  }

  /** What a reconciled table is: every row has a type, every store a platform row and one primary row,
      the tenant's primary row is the known hostname, and the mode is legacy. */
  lemma ReconciledExactly(db: Db, pick: Option<nat>)
    ensures Reconciled(db, pick) <==>
      && (forall i :: 0 <= i < |db.domains| ==> db.domains[i].kind.Some?)
      && (forall s: nat :: s < |db.stores| ==> PlatformRowIn(db.domains, s))
      && (forall s: nat :: s < |db.stores| ==> |PrimaryRows(db.domains, s)| == 1)
      && pick.Some? && pick.value < |db.domains| && db.domains[pick.value].hostname == "www.printforge.world"
      && db.mode == Some("legacy")
  {
    hide CountPrimary, PrimaryRows;
    forall s: nat | s < |db.stores|
      ensures CountPrimary(db.domains, s) == |PrimaryRows(db.domains, s)|
    {
      PrimariesCounted(db.domains, s);
    }
    assert OneEach(db) <==> forall s: nat :: s < |db.stores| ==> |PrimaryRows(db.domains, s)| == 1;
    assert forall s: nat :: HasPlatformRow(db, s) <==> PlatformRowIn(db.domains, s);
    hide OneEach, HasPlatformRow, PlatformRowIn;
  }

  /** When a run without anomalies passes, on the rows it started from: every other store that has, or
      will count as having, a platform row had a primary one. */
  lemma PassesExactly(db: Db, tenant: nat, platform: string, s: nat, pick: Option<nat>)
    requires Wf(db) && OnlyStore(db, tenant, s)
    requires RunAll(db, tenant, platform).Commit? && RunAll(db, tenant, platform).value.anomalies == 0
    requires ReturnsPrimary(RunAll(db, tenant, platform).db, tenant, pick)
    ensures
      Reconciled(RunAll(db, tenant, platform).db, pick) <==>
      forall t: nat :: t < |db.stores| && t != s && (exists i :: 0 <= i < |db.domains| && CountsAsPlatform(db.domains[i], platform, t)) ==>
        PrimaryRowIn(db.domains, t)
  {
    PassesIff(db, tenant, platform, s, pick);
    assert forall t: nat :: HasPrimaryRow(db, t) <==> PrimaryRowIn(db.domains, t);
    hide *;
    forall t: nat
      ensures HasPlatformRow(B1(db, platform), t) <==> exists i :: 0 <= i < |db.domains| && CountsAsPlatform(db.domains[i], platform, t)
    {
      PlatformRowAfterB1(db, platform, t);
    }
  }
}
