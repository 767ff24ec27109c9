/** The v2 histories row by row: every row is called for by one change or event, with that one's own columns,
    and every change and event that calls for a row has it. */
module AnsHistory {
  import opened Options
  import opened Addresses
  import opened Ans

  predicate SameAddress(a: string, b: string) {
    StandardizeAddress(a) == StandardizeAddress(b)
  }

  function Target(a: Option<string>): Option<string> {
    if a.Some? then Some(StandardizeAddress(a.value)) else None
  }

  // ---------- Subdomain extensions ----------

  /** Change `j` writes a subdomain extension at the address. */
  predicate IsExt(cs: seq<Change>, j: nat, address: string) {
    j < |cs| && cs[j].WriteResource? && cs[j].resource.SubdomainExt? && SameAddress(cs[j].address, address)
  }

  predicate LastExt(cs: seq<Change>, j: nat, address: string) {
    IsExt(cs, j, address) && forall n | j < n < |cs| :: !IsExt(cs, n, address)
  }

  /** Subdomain and policy of a name at the address: those of the last extension there, or none. */
  ghost predicate ExtOf(cs: seq<Change>, address: string, subdomain: string, policy: Option<int>) {
    || (&& (forall j: nat :: !IsExt(cs, j, address)) && subdomain == "" && policy == None)
    || exists j: nat ::
         LastExt(cs, j, address)
         && subdomain == Truncate(cs[j].resource.subdomain) && policy == Some(cs[j].resource.policy)
  }

  lemma {:induction false} ExtsAreLast(cs: seq<Change>, address: string) returns (j: nat)
    requires CollectExts(cs).Some?
    ensures var exts, a := CollectExts(cs).value, StandardizeAddress(address);
            && (a !in exts ==> forall n: nat :: !IsExt(cs, n, address))
            && (a in exts ==> LastExt(cs, j, address) && exts[a] == (cs[j].resource.subdomain, cs[j].resource.policy))
  {
    j := 0;
    if cs != [] {
      var n := |cs| - 1;
      var front := cs[..n];
      j := ExtsAreLast(front, address);
      assert forall m: nat | m < n :: IsExt(cs, m, address) <==> IsExt(front, m, address);
      if IsExt(cs, n, address) { j := n; }
    }
  }

  lemma OneExt(cs: seq<Change>, address: string, j: nat, n: nat)
    requires LastExt(cs, j, address) && LastExt(cs, n, address)
    ensures j == n
  {
  }

  // ---------- The row a change or an event calls for ----------

  predicate LookupColumns(h: LookupV2, x: Transaction, i: int, standard: TokenStandard, domain: string, subdomain: string) {
    && h.version == x.version && h.index == i && h.standard == standard
    && h.domain == domain && h.subdomain == subdomain && h.tokenName == TokenName(domain, subdomain)
  }

  /** `h` is the lookup row that change `i` calls for: a v1 name record written or deleted, or a v2 one written. */
  ghost predicate LookupOfChange(cfg: Config, x: Transaction, i: nat, h: LookupV2) {
    x.isUser && i < |x.changes| &&
    match x.changes[i]
    case WriteTableItem(handle, Some((NameKey(d, s), NameRecord(exp, target)))) =>
      && SameAddress(handle, cfg.nameRecordsHandle)
      && LookupColumns(h, x, i, V1, Truncate(d), Truncate(OrEmpty(s)))
      && h.registered == Target(target) && h.expiration == exp && !h.isDeleted && h.policy == None
    case DeleteTableItem(handle, Some(NameKey(d, s))) =>
      && SameAddress(handle, cfg.nameRecordsHandle)
      && LookupColumns(h, x, i, V1, Truncate(d), Truncate(OrEmpty(s)))
      && h.registered == None && h.expiration == 0 && h.isDeleted && h.policy == None
    case WriteResource(address, NameRecordV2(d, exp, target)) =>
      && ExtOf(x.changes, address, h.subdomain, h.policy)
      && LookupColumns(h, x, i, V2, Truncate(d), h.subdomain)
      && h.registered == Target(target) && h.expiration == exp && !h.isDeleted
    case _ => false
  }

  predicate NameColumns(h: NameV2, x: Transaction, i: int, standard: TokenStandard, address: string) {
    h.version == x.version && h.index == i && h.standard == standard && h.registered == StandardizeAddress(address)
  }

  predicate Named(h: NameV2, domain: string, subdomain: string) {
    && h.domain == Some(domain) && h.subdomain == Some(subdomain)
    && h.tokenName == Some(TokenName(domain, subdomain)) && !h.isDeleted
  }

  predicate Unnamed(h: NameV2) {
    h.domain == None && h.subdomain == None && h.tokenName == None && h.isDeleted
  }

  /** `h` is the primary name row that change `i` calls for: a v1 reverse record written or deleted. */
  predicate NameOfChange(cfg: Config, x: Transaction, i: nat, h: NameV2) {
    x.isUser && i < |x.changes| &&
    match x.changes[i]
    case WriteTableItem(handle, Some((AddressKey(a), NameKey(d, s)))) =>
      SameAddress(handle, cfg.primaryNamesHandle) && NameColumns(h, x, i, V1, a)
      && Named(h, Truncate(d), Truncate(OrEmpty(s)))
    case DeleteTableItem(handle, Some(AddressKey(a))) =>
      SameAddress(handle, cfg.primaryNamesHandle) && NameColumns(h, x, i, V1, a) && Unnamed(h)
    case _ => false
  }

  /** `h` is the primary name row that event `i` calls for: a v2 reverse lookup set, or unset by an empty
      domain. */
  predicate NameOfEvent(x: Transaction, i: nat, h: NameV2) {
    x.isUser && i < |x.events| &&
    match x.events[i]
    case SetReverseLookup(account, domain, subdomain) =>
      && NameColumns(h, x, 0 - (i + 1), V2, account)
      && (if Truncate(OrEmpty(domain)) == "" then Unnamed(h)
          else Named(h, Truncate(OrEmpty(domain)), Truncate(OrEmpty(subdomain))))
    case _ => false
  }

  // ---------- Lookups ----------

  lemma ResourceLookup(cfg: Config, x: Transaction, exts: Exts, i: nat, h: LookupV2)
    requires x.isUser && i < |x.changes| && x.changes[i].WriteResource? && CollectExts(x.changes) == Some(exts)
    ensures var r := ParseLookupResource(exts, x.changes[i].address, x.changes[i].resource, x.version, i);
            LookupOfChange(cfg, x, i, h) <==> r.Got? && h == r.history
  {
    var c := x.changes[i];
    if c.resource.NameRecordV2? {
      var j := ExtsAreLast(x.changes, c.address);
      forall n: nat | StandardizeAddress(c.address) in exts && LastExt(x.changes, n, c.address)
        ensures n == j
      {
        OneExt(x.changes, c.address, j, n);
      }
    }
  }

  lemma TableItemLookup(cfg: Config, x: Transaction, i: nat, h: LookupV2)
    requires x.isUser && i < |x.changes|
    ensures x.changes[i].WriteTableItem? ==>
              var r := ParseLookupWrite(cfg, x.changes[i].handle, x.changes[i].data, x.version, i);
              LookupOfChange(cfg, x, i, h) <==> r.Got? && h == LookupRowToV2(r.history)
    ensures x.changes[i].DeleteTableItem? ==>
              var r := ParseLookupDelete(cfg, x.changes[i].handle, x.changes[i].key, x.version, i);
              LookupOfChange(cfg, x, i, h) <==> r.Got? && h == LookupRowToV2(r.history)
  {
  }

  lemma ChangeLookup(cfg: Config, x: Transaction, exts: Exts, t: Tables, i: nat, h: LookupV2)
    requires x.isUser && i < |x.changes| && CollectExts(x.changes) == Some(exts)
    requires ApplyChange(cfg, exts, t, x.changes[i], x.version, i).Some?
    ensures h in ApplyChange(cfg, exts, t, x.changes[i], x.version, i).value.lookupRowsV2 <==>
              h in t.lookupRowsV2 || LookupOfChange(cfg, x, i, h)
  {
    TableItemLookup(cfg, x, i, h);
    match x.changes[i]
    case WriteTableItem(handle, data) =>
      TableItemAdds(t, ParseLookupWrite(cfg, handle, data, x.version, i), ParseNameWrite(cfg, handle, data, x.version, i));
    case DeleteTableItem(handle, key) =>
      TableItemAdds(t, ParseLookupDelete(cfg, handle, key, x.version, i), ParseNameDelete(cfg, handle, key, x.version, i));
    case WriteResource(_, _) => ResourceLookup(cfg, x, exts, i, h);
    case OtherChange =>
  }

  /** The first `n` changes, one at a time. */
  lemma ChangesUnfold(cfg: Config, exts: Exts, t: Tables, cs: seq<Change>, n: nat, version: nat)
    requires 0 < n <= |cs|
    ensures var before := ApplyChanges(cfg, exts, t, cs[..n - 1], version);
            ApplyChanges(cfg, exts, t, cs[..n], version)
              == if before == None then None else ApplyChange(cfg, exts, before.value, cs[n - 1], version, n - 1)
  {
    assert cs[..n][..n - 1] == cs[..n - 1] && cs[..n][n - 1] == cs[n - 1];
  }

  ghost predicate SomeLookup(cfg: Config, x: Transaction, n: nat, h: LookupV2) {
    exists i: nat :: i < n && LookupOfChange(cfg, x, i, h)
  }

  lemma SomeLookupNext(cfg: Config, x: Transaction, n: nat, h: LookupV2)
    ensures SomeLookup(cfg, x, n + 1, h) <==> SomeLookup(cfg, x, n, h) || LookupOfChange(cfg, x, n, h)
  {
  }

  lemma {:induction false} ChangesLookups(cfg: Config, x: Transaction, exts: Exts, t: Tables, n: nat, h: LookupV2)
    requires x.isUser && n <= |x.changes| && CollectExts(x.changes) == Some(exts)
    requires ApplyChanges(cfg, exts, t, x.changes[..n], x.version).Some?
    ensures h in ApplyChanges(cfg, exts, t, x.changes[..n], x.version).value.lookupRowsV2 <==>
              h in t.lookupRowsV2 || SomeLookup(cfg, x, n, h)
  {
    if n > 0 {
      ChangesUnfold(cfg, exts, t, x.changes, n, x.version);
      ChangesLookups(cfg, x, exts, t, n - 1, h);
      ChangeLookup(cfg, x, exts, ApplyChanges(cfg, exts, t, x.changes[..n - 1], x.version).value, n - 1, h);
      SomeLookupNext(cfg, x, n - 1, h);
    }
  }

  lemma {:induction false} EventsKeepLookups(t: Tables, es: seq<Event>, version: nat)
    requires ApplyEvents(t, es, version).Some?
    ensures ApplyEvents(t, es, version).value.lookupRowsV2 == t.lookupRowsV2
  {
    if es != [] { EventsKeepLookups(t, es[..|es| - 1], version); }
  }

  /** A lookup row is in the history exactly when some change of some transaction calls for it. */
  lemma {:induction false} LookupHistoryIsExact(cfg: Config, xs: seq<Transaction>, h: LookupV2)
    requires ParseAll(cfg, xs).Some?
    ensures h in ParseAll(cfg, xs).value.lookupRowsV2 <==> exists x, i: nat :: x in xs && LookupOfChange(cfg, x, i, h)
  {
    if xs != [] {
      var front, x := xs[..|xs| - 1], xs[|xs| - 1];
      assert xs == front + [x];
      LookupHistoryIsExact(cfg, front, h);
      TxnLookups(cfg, ParseAll(cfg, front).value, x, h);
    }
  }

  lemma TxnLookups(cfg: Config, t: Tables, x: Transaction, h: LookupV2)
    requires ApplyTxn(cfg, t, x).Some?
    ensures h in ApplyTxn(cfg, t, x).value.lookupRowsV2 <==>
              h in t.lookupRowsV2 || exists i: nat :: LookupOfChange(cfg, x, i, h)
  {
    if x.isUser {
      EventsKeepLookups(t, x.events, x.version);
      assert x.changes[..|x.changes|] == x.changes;
      ChangesLookups(cfg, x, CollectExts(x.changes).value, ApplyEvents(t, x.events, x.version).value, |x.changes|, h);
    }
  }

  // ---------- Primary names ----------

  lemma TableItemName(cfg: Config, x: Transaction, i: nat, h: NameV2)
    requires x.isUser && i < |x.changes|
    ensures x.changes[i].WriteTableItem? ==>
              var r := ParseNameWrite(cfg, x.changes[i].handle, x.changes[i].data, x.version, i);
              NameOfChange(cfg, x, i, h) <==> r.Got? && h == NameRowToV2(r.history)
    ensures x.changes[i].DeleteTableItem? ==>
              var r := ParseNameDelete(cfg, x.changes[i].handle, x.changes[i].key, x.version, i);
              NameOfChange(cfg, x, i, h) <==> r.Got? && h == NameRowToV2(r.history)
  {
  }

  /** What a table item adds to the histories. */
  lemma TableItemAdds(t: Tables, l: Parsed<CurrentLookup, Lookup>, n: Parsed<CurrentName, Name>)
    requires AfterLookup(t, l).Some? && AfterName(AfterLookup(t, l).value, n).Some?
    ensures var t' := AfterName(AfterLookup(t, l).value, n).value;
            && t'.lookupRowsV2 == t.lookupRowsV2 + (if l.Got? then [LookupRowToV2(l.history)] else [])
            && t'.nameRowsV2 == t.nameRowsV2 + (if n.Got? then [NameRowToV2(n.history)] else [])
  {
  }

  lemma ChangeName(cfg: Config, x: Transaction, exts: Exts, t: Tables, i: nat, h: NameV2)
    requires x.isUser && i < |x.changes| && ApplyChange(cfg, exts, t, x.changes[i], x.version, i).Some?
    ensures h in ApplyChange(cfg, exts, t, x.changes[i], x.version, i).value.nameRowsV2 <==>
              h in t.nameRowsV2 || NameOfChange(cfg, x, i, h)
  {
    TableItemName(cfg, x, i, h);
    match x.changes[i]
    case WriteTableItem(handle, data) =>
      TableItemAdds(t, ParseLookupWrite(cfg, handle, data, x.version, i), ParseNameWrite(cfg, handle, data, x.version, i));
    case DeleteTableItem(handle, key) =>
      TableItemAdds(t, ParseLookupDelete(cfg, handle, key, x.version, i), ParseNameDelete(cfg, handle, key, x.version, i));
    case _ =>
  }

  lemma EventName(x: Transaction, t: Tables, i: nat, h: NameV2)
    requires x.isUser && i < |x.events| && ApplyEvent(t, x.events[i], x.version, i).Some?
    ensures h in ApplyEvent(t, x.events[i], x.version, i).value.nameRowsV2 <==> h in t.nameRowsV2 || NameOfEvent(x, i, h)
  {
  }

  ghost predicate SomeChangeName(cfg: Config, x: Transaction, n: nat, h: NameV2) {
    exists i: nat :: i < n && NameOfChange(cfg, x, i, h)
  }

  ghost predicate SomeEventName(x: Transaction, n: nat, h: NameV2) {
    exists i: nat :: i < n && NameOfEvent(x, i, h)
  }

  lemma SomeChangeNameNext(cfg: Config, x: Transaction, n: nat, h: NameV2)
    ensures SomeChangeName(cfg, x, n + 1, h) <==> SomeChangeName(cfg, x, n, h) || NameOfChange(cfg, x, n, h)
  {
  }

  lemma {:induction false} ChangesNames(cfg: Config, x: Transaction, exts: Exts, t: Tables, n: nat, h: NameV2)
    requires x.isUser && n <= |x.changes| && ApplyChanges(cfg, exts, t, x.changes[..n], x.version).Some?
    ensures h in ApplyChanges(cfg, exts, t, x.changes[..n], x.version).value.nameRowsV2 <==>
              h in t.nameRowsV2 || SomeChangeName(cfg, x, n, h)
  {
    if n > 0 {
      ChangesUnfold(cfg, exts, t, x.changes, n, x.version);
      ChangesNames(cfg, x, exts, t, n - 1, h);
      ChangeName(cfg, x, exts, ApplyChanges(cfg, exts, t, x.changes[..n - 1], x.version).value, n - 1, h);
      SomeChangeNameNext(cfg, x, n - 1, h);
    }
  }

  lemma {:induction false} EventsNames(x: Transaction, t: Tables, n: nat, h: NameV2)
    requires x.isUser && n <= |x.events| && ApplyEvents(t, x.events[..n], x.version).Some?
    ensures h in ApplyEvents(t, x.events[..n], x.version).value.nameRowsV2 <==> h in t.nameRowsV2 || SomeEventName(x, n, h)
  {
    if n > 0 {
      assert x.events[..n][..n - 1] == x.events[..n - 1] && x.events[..n][n - 1] == x.events[n - 1];
      EventsNames(x, t, n - 1, h);
      EventName(x, ApplyEvents(t, x.events[..n - 1], x.version).value, n - 1, h);
      assert SomeEventName(x, n, h) <==> SomeEventName(x, n - 1, h) || NameOfEvent(x, n - 1, h);
    }
  }

  lemma TxnNames(cfg: Config, t: Tables, x: Transaction, h: NameV2)
    requires ApplyTxn(cfg, t, x).Some?
    ensures h in ApplyTxn(cfg, t, x).value.nameRowsV2 <==>
              h in t.nameRowsV2 || exists i: nat :: NameOfEvent(x, i, h) || NameOfChange(cfg, x, i, h)
  {
    if x.isUser {
      assert x.events[..|x.events|] == x.events && x.changes[..|x.changes|] == x.changes;
      EventsNames(x, t, |x.events|, h);
      ChangesNames(cfg, x, CollectExts(x.changes).value, ApplyEvents(t, x.events, x.version).value, |x.changes|, h);
    }
  }

  /** A primary name row is in the history exactly when some event or change of some transaction calls for
      it. */
  lemma {:induction false} NameHistoryIsExact(cfg: Config, xs: seq<Transaction>, h: NameV2)
    requires ParseAll(cfg, xs).Some?
    ensures h in ParseAll(cfg, xs).value.nameRowsV2 <==>
              exists x, i: nat :: x in xs && (NameOfEvent(x, i, h) || NameOfChange(cfg, x, i, h))
  {
    if xs != [] {
      var front, x := xs[..|xs| - 1], xs[|xs| - 1];
      assert xs == front + [x];
      NameHistoryIsExact(cfg, front, h);
      TxnNames(cfg, ParseAll(cfg, front).value, x, h);
    }
  }

  /** With distinct versions, a v2 name record has exactly one lookup row under its version and change index, and
      that row has its columns. */
  lemma NameRecordHasItsRow(cfg: Config, xs: seq<Transaction>, x: Transaction, i: nat, sub: string, policy: Option<int>)
    requires ParseAll(cfg, xs).Some? && forall m, n | 0 <= m < n < |xs| :: xs[m].version != xs[n].version
    requires x in xs && x.isUser && i < |x.changes| && x.changes[i].WriteResource? && x.changes[i].resource.NameRecordV2?
    requires ExtOf(x.changes, x.changes[i].address, sub, policy)
    ensures var rows, r := ParseAll(cfg, xs).value.lookupRowsV2, x.changes[i].resource;
            exists n :: && 0 <= n < |rows|
                        && rows[n] == LookupV2(x.version, i, Truncate(r.domain), sub, V2, Target(r.targetV2),
                                               r.expirationV2, TokenName(Truncate(r.domain), sub), false, policy)
                        && forall m | 0 <= m < |rows| && rows[m].version == x.version && rows[m].index == i :: m == n
  {
    var rows, r := ParseAll(cfg, xs).value.lookupRowsV2, x.changes[i].resource;
    var h := LookupV2(x.version, i, Truncate(r.domain), sub, V2, Target(r.targetV2), r.expirationV2,
                      TokenName(Truncate(r.domain), sub), false, policy);
    assert LookupOfChange(cfg, x, i, h);
    LookupHistoryIsExact(cfg, xs, h);
    HistoryKeysAreUnique(cfg, xs);
    var n :| 0 <= n < |rows| && rows[n] == h;
  }

  // ---------- When a parse panics ----------

  /** The change does not decode where it matters. */
  predicate BadChange(cfg: Config, c: Change) {
    match c
    case WriteResource(_, BadResource) => true
    case WriteTableItem(handle, Some((k, v))) =>
      || (SameAddress(handle, cfg.nameRecordsHandle) && (k.BadName? || (k.NameKey? && v.BadName?)))
      || (SameAddress(handle, cfg.primaryNamesHandle) && (k.BadAddress? || (k.AddressKey? && v.BadName?)))
    case DeleteTableItem(handle, Some(k)) =>
      || (SameAddress(handle, cfg.nameRecordsHandle) && k.BadName?)
      || (SameAddress(handle, cfg.primaryNamesHandle) && k.BadAddress?)
    case _ => false
  }

  ghost predicate BadTransaction(cfg: Config, x: Transaction) {
    x.isUser && ((exists e :: e in x.events && e.BadEvent?) || exists c :: c in x.changes && BadChange(cfg, c))
  }

  lemma {:induction false} EventsPanicIff(t: Tables, es: seq<Event>, version: nat)
    ensures ApplyEvents(t, es, version) == None <==> exists e :: e in es && e.BadEvent?
  {
    if es != [] {
      EventsPanicIff(t, es[..|es| - 1], version);
      assert es == es[..|es| - 1] + [es[|es| - 1]];
    }
  }

  lemma {:induction false} ExtsPanicIff(cs: seq<Change>)
    ensures CollectExts(cs) == None <==> exists c :: c in cs && c.WriteResource? && c.resource.BadResource?
  {
    if cs != [] {
      ExtsPanicIff(cs[..|cs| - 1]);
      assert cs == cs[..|cs| - 1] + [cs[|cs| - 1]];
    }
  }

  lemma ChangePanicsIff(cfg: Config, exts: Exts, t: Tables, c: Change, version: nat, i: nat)
    ensures ApplyChange(cfg, exts, t, c, version, i) == None <==> BadChange(cfg, c)
  {
  }

  lemma {:induction false} ChangesPanicIff(cfg: Config, exts: Exts, t: Tables, cs: seq<Change>, version: nat)
    ensures ApplyChanges(cfg, exts, t, cs, version) == None <==> exists c :: c in cs && BadChange(cfg, c)
  {
    if cs != [] {
      var front, c := cs[..|cs| - 1], cs[|cs| - 1];
      ChangesPanicIff(cfg, exts, t, front, version);
      assert cs == front + [c];
      var before := ApplyChanges(cfg, exts, t, front, version);
      if before.Some? { ChangePanicsIff(cfg, exts, before.value, c, version, |front|); }
    }
  }

  lemma TxnPanicsIff(cfg: Config, t: Tables, x: Transaction)
    ensures ApplyTxn(cfg, t, x) == None <==> BadTransaction(cfg, x)
  {
    if x.isUser {
      EventsPanicIff(t, x.events, x.version);
      ExtsPanicIff(x.changes);
      var t1, exts := ApplyEvents(t, x.events, x.version), CollectExts(x.changes);
      if t1.Some? && exts.Some? { ChangesPanicIff(cfg, exts.value, t1.value, x.changes, x.version); }
    }
  }

  /** A parse panics exactly when some user transaction has an event, a resource or a table item of the name
      service that does not decode. */
  lemma {:induction false} ParsePanicsIff(cfg: Config, xs: seq<Transaction>)
    ensures ParseAll(cfg, xs) == None <==> exists x :: x in xs && BadTransaction(cfg, x)
  {
    if xs != [] {
      var front, x := xs[..|xs| - 1], xs[|xs| - 1];
      assert xs == front + [x];
      ParsePanicsIff(cfg, front);
      if ParseAll(cfg, front).Some? { TxnPanicsIff(cfg, ParseAll(cfg, front).value, x); }
    }
  }
}
