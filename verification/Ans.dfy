/** The name service processor: v1 table changes, mirrored into the v2 tables beside the v2 events
    and resources. */
module Ans {
  import opened Options
  import opened Addresses

  const DOMAIN_LENGTH: nat := 64

  function Truncate(s: string): string {
    if |s| <= DOMAIN_LENGTH then s else s[..DOMAIN_LENGTH]
  }

  function OrEmpty(s: Option<string>): string {
    if s.Some? then s.value else ""
  }

  function TokenName(domain: string, subdomain: string): string {
    var name := Truncate(domain) + ".apt";
    if Truncate(subdomain) == "" then name else Truncate(subdomain) + "." + name
  }

  // ---------- What a transaction holds, decoded ----------

  /** A table key or value. `BadName` has the type of a name but does not decode; `BadAddress` has the
      type of an address but does not decode. */
  datatype Decoded =
    | NameKey(domain: string, subdomain: Option<string>)
    | NameRecord(expiration: nat, target: Option<string>)
    | AddressKey(address: string)
    | OtherType
    | BadName
    | BadAddress

  datatype Resource =
    | NameRecordV2(domain: string, expirationV2: nat, targetV2: Option<string>)
    | SubdomainExt(policy: int, subdomain: string)
    | OtherResource
    | BadResource

  datatype Change =
    | WriteTableItem(handle: string, data: Option<(Decoded, Decoded)>)
    | DeleteTableItem(handle: string, key: Option<Decoded>)
    | WriteResource(address: string, resource: Resource)
    | OtherChange

  datatype Event =
    | SetReverseLookup(account: string, currDomain: Option<string>, currSubdomain: Option<string>)
    | RenewName
    | OtherEvent
    | BadEvent

  datatype Transaction = Transaction(version: nat, isUser: bool, events: seq<Event>, changes: seq<Change>)

  datatype Config = Config(primaryNamesHandle: string, nameRecordsHandle: string)

  // ---------- Rows ----------

  datatype TokenStandard = V1 | V2

  datatype CurrentLookup = CurrentLookup(
    domain: string, subdomain: string, registered: Option<string>, lastVersion: nat, expiration: nat,
    tokenName: string, isDeleted: bool)

  datatype Lookup = Lookup(
    version: nat, index: int, domain: string, subdomain: string, registered: Option<string>,
    expiration: nat, tokenName: string, isDeleted: bool)

  datatype CurrentName = CurrentName(
    registered: string, domain: Option<string>, subdomain: Option<string>, tokenName: Option<string>,
    isDeleted: bool, lastVersion: nat)

  datatype Name = Name(
    version: nat, index: int, registered: string, domain: Option<string>, subdomain: Option<string>,
    tokenName: Option<string>, isDeleted: bool)

  datatype CurrentLookupV2 = CurrentLookupV2(
    domain: string, subdomain: string, standard: TokenStandard, registered: Option<string>, lastVersion: nat,
    expiration: nat, tokenName: string, isDeleted: bool, policy: Option<int>)

  datatype LookupV2 = LookupV2(
    version: nat, index: int, domain: string, subdomain: string, standard: TokenStandard,
    registered: Option<string>, expiration: nat, tokenName: string, isDeleted: bool, policy: Option<int>)

  datatype CurrentNameV2 = CurrentNameV2(
    registered: string, standard: TokenStandard, domain: Option<string>, subdomain: Option<string>,
    tokenName: Option<string>, isDeleted: bool, lastVersion: nat)

  datatype NameV2 = NameV2(
    version: nat, index: int, registered: string, standard: TokenStandard, domain: Option<string>,
    subdomain: Option<string>, tokenName: Option<string>, isDeleted: bool)

  /** A parse finds nothing, finds a row for each of two tables, or panics. */
  datatype Parsed<+C, +H> = NoRow | Got(current: C, history: H) | Panic

  function ParseLookupWrite(cfg: Config, handle: string, data: Option<(Decoded, Decoded)>, version: nat, index: int)
    : Parsed<CurrentLookup, Lookup>
  {
    if StandardizeAddress(handle) != StandardizeAddress(cfg.nameRecordsHandle) || data == None then NoRow
    else
      match data.value
      case (BadName, _) => Panic
      case (NameKey(d, s), BadName) => Panic
      case (NameKey(d, s), NameRecord(exp, target)) =>
        var dom, sub := Truncate(d), Truncate(OrEmpty(s));
        var addr := if target.Some? then Some(StandardizeAddress(target.value)) else None;
        Got(CurrentLookup(dom, sub, addr, version, exp, TokenName(dom, sub), false),
            Lookup(version, index, dom, sub, addr, exp, TokenName(dom, sub), false))
      case _ => NoRow
  }

  function ParseLookupDelete(cfg: Config, handle: string, key: Option<Decoded>, version: nat, index: int)
    : Parsed<CurrentLookup, Lookup>
  {
    if StandardizeAddress(handle) != StandardizeAddress(cfg.nameRecordsHandle) || key == None then NoRow
    else
      match key.value
      case BadName => Panic
      case NameKey(d, s) =>
        var dom, sub := Truncate(d), Truncate(OrEmpty(s));
        Got(CurrentLookup(dom, sub, None, version, 0, TokenName(dom, sub), true),
            Lookup(version, index, dom, sub, None, 0, TokenName(dom, sub), true))
      case _ => NoRow
  }

  function ParseNameWrite(cfg: Config, handle: string, data: Option<(Decoded, Decoded)>, version: nat, index: int)
    : Parsed<CurrentName, Name>
  {
    if StandardizeAddress(handle) != StandardizeAddress(cfg.primaryNamesHandle) || data == None then NoRow
    else
      match data.value
      case (BadAddress, _) => Panic
      case (AddressKey(a), BadName) => Panic
      case (AddressKey(a), NameKey(d, s)) =>
        var dom, sub := Truncate(d), Truncate(OrEmpty(s));
        var addr := StandardizeAddress(a);
        Got(CurrentName(addr, Some(dom), Some(sub), Some(TokenName(dom, sub)), false, version),
            Name(version, index, addr, Some(dom), Some(sub), Some(TokenName(dom, sub)), false))
      case _ => NoRow
  }

  function ParseNameDelete(cfg: Config, handle: string, key: Option<Decoded>, version: nat, index: int)
    : Parsed<CurrentName, Name>
  {
    if StandardizeAddress(handle) != StandardizeAddress(cfg.primaryNamesHandle) || key == None then NoRow
    else
      match key.value
      case BadAddress => Panic
      case AddressKey(a) =>
        var addr := StandardizeAddress(a);
        Got(CurrentName(addr, None, None, None, true, version), Name(version, index, addr, None, None, None, true))
      case _ => NoRow
  }

  /** A v2 primary name from an event; its history index is negative. */
  function ParseNameEvent(e: Event, version: nat, eventIndex: nat): Parsed<CurrentNameV2, NameV2> {
    match e
    case BadEvent => Panic
    case SetReverseLookup(account, domain, subdomain) =>
      var addr, dom, sub := StandardizeAddress(account), Truncate(OrEmpty(domain)), Truncate(OrEmpty(subdomain));
      if dom == "" then
        Got(CurrentNameV2(addr, V2, None, None, None, true, version),
            NameV2(version, -(eventIndex + 1), addr, V2, None, None, None, true))
      else
        Got(CurrentNameV2(addr, V2, Some(dom), Some(sub), Some(TokenName(dom, sub)), false, version),
            NameV2(version, -(eventIndex + 1), addr, V2, Some(dom), Some(sub), Some(TokenName(dom, sub)), false))
    case _ => NoRow
  }

  type Exts = map<string, (string, int)>

  function ParseLookupResource(exts: Exts, address: string, r: Resource, version: nat, index: int)
    : Parsed<CurrentLookupV2, LookupV2>
  {
    match r
    case BadResource => Panic
    case NameRecordV2(d, exp, target) =>
      var a := StandardizeAddress(address);
      var sub := if a in exts then Truncate(exts[a].0) else "";
      var policy := if a in exts then Some(exts[a].1) else None;
      var dom := Truncate(d);
      var addr := if target.Some? then Some(StandardizeAddress(target.value)) else None;
      Got(CurrentLookupV2(dom, sub, V2, addr, version, exp, TokenName(dom, sub), false, policy),
          LookupV2(version, index, dom, sub, V2, addr, exp, TokenName(dom, sub), false, policy))
    case _ => NoRow
  }

  // ---------- The four maps and four lists ----------

  type LookupKey = (string, string)
  type LookupV2Key = (string, string, TokenStandard)
  type NameV2Key = (string, TokenStandard)

  datatype Tables = Tables(
    lookups: map<LookupKey, CurrentLookup>, lookupRows: seq<Lookup>,
    names: map<string, CurrentName>, nameRows: seq<Name>,
    lookupsV2: map<LookupV2Key, CurrentLookupV2>, lookupRowsV2: seq<LookupV2>,
    namesV2: map<NameV2Key, CurrentNameV2>, nameRowsV2: seq<NameV2>)

  const EMPTY_TABLES := Tables(map[], [], map[], [], map[], [], map[], [])

  function PkLookup(c: CurrentLookup): LookupKey { (c.domain, c.subdomain) }
  function PkLookupV2(c: CurrentLookupV2): LookupV2Key { (c.domain, c.subdomain, c.standard) }
  function PkName(c: CurrentName): string { c.registered }
  function PkNameV2(c: CurrentNameV2): NameV2Key { (c.registered, c.standard) }

  function LookupToV2(c: CurrentLookup): CurrentLookupV2 {
    CurrentLookupV2(c.domain, c.subdomain, V1, c.registered, c.lastVersion, c.expiration, c.tokenName, c.isDeleted, None)
  }

  function LookupRowToV2(h: Lookup): LookupV2 {
    LookupV2(h.version, h.index, h.domain, h.subdomain, V1, h.registered, h.expiration, h.tokenName, h.isDeleted, None)
  }

  function NameToV2(c: CurrentName): CurrentNameV2 {
    CurrentNameV2(c.registered, V1, c.domain, c.subdomain, c.tokenName, c.isDeleted, c.lastVersion)
  }

  function NameRowToV2(h: Name): NameV2 {
    NameV2(h.version, h.index, h.registered, V1, h.domain, h.subdomain, h.tokenName, h.isDeleted)
  }

  function PutLookupV2(t: Tables, c: CurrentLookupV2, h: LookupV2): Tables {
    t.(lookupsV2 := t.lookupsV2[PkLookupV2(c) := c], lookupRowsV2 := t.lookupRowsV2 + [h])
  }

  function PutNameV2(t: Tables, c: CurrentNameV2, h: NameV2): Tables {
    t.(namesV2 := t.namesV2[PkNameV2(c) := c], nameRowsV2 := t.nameRowsV2 + [h])
  }

  /** A v1 lookup goes to the v1 tables and, converted, to the v2 ones. */
  function PutLookup(t: Tables, c: CurrentLookup, h: Lookup): Tables {
    PutLookupV2(t.(lookups := t.lookups[PkLookup(c) := c], lookupRows := t.lookupRows + [h]),
                LookupToV2(c), LookupRowToV2(h))
  }

  function PutName(t: Tables, c: CurrentName, h: Name): Tables {
    PutNameV2(t.(names := t.names[PkName(c) := c], nameRows := t.nameRows + [h]), NameToV2(c), NameRowToV2(h))
  }

  function AfterLookup(t: Tables, r: Parsed<CurrentLookup, Lookup>): Option<Tables> {
    match r case NoRow => Some(t) case Got(c, h) => Some(PutLookup(t, c, h)) case Panic => None
  }

  function AfterName(t: Tables, r: Parsed<CurrentName, Name>): Option<Tables> {
    match r case NoRow => Some(t) case Got(c, h) => Some(PutName(t, c, h)) case Panic => None
  }

  function ApplyEvent(t: Tables, e: Event, version: nat, i: nat): Option<Tables> {
    match ParseNameEvent(e, version, i)
    case NoRow => Some(t)
    case Got(c, h) => Some(PutNameV2(t, c, h))
    case Panic => None
  }

  function ApplyChange(cfg: Config, exts: Exts, t: Tables, c: Change, version: nat, i: nat): Option<Tables> {
    match c
    case WriteTableItem(handle, data) =>
      var t1 := AfterLookup(t, ParseLookupWrite(cfg, handle, data, version, i));
      if t1 == None then None else AfterName(t1.value, ParseNameWrite(cfg, handle, data, version, i))
    case DeleteTableItem(handle, key) =>
      var t1 := AfterLookup(t, ParseLookupDelete(cfg, handle, key, version, i));
      if t1 == None then None else AfterName(t1.value, ParseNameDelete(cfg, handle, key, version, i))
    case WriteResource(address, r) =>
      (match ParseLookupResource(exts, address, r, version, i)
       case NoRow => Some(t)
       case Got(cur, h) => Some(PutLookupV2(t, cur, h))
       case Panic => None)
    case OtherChange => Some(t)
  }

  function ApplyEvents(t: Tables, es: seq<Event>, version: nat): Option<Tables> {
    if es == [] then Some(t)
    else
      var before := ApplyEvents(t, es[..|es| - 1], version);
      if before == None then None else ApplyEvent(before.value, es[|es| - 1], version, |es| - 1)
  }

  /** Resource accounts of subdomains; none when a resource does not decode. */
  function CollectExts(cs: seq<Change>): Option<Exts> {
    if cs == [] then Some(map[])
    else
      var before, c := CollectExts(cs[..|cs| - 1]), cs[|cs| - 1];
      if before == None || (c.WriteResource? && c.resource.BadResource?) then None
      else if c.WriteResource? && c.resource.SubdomainExt? then
        Some(before.value[StandardizeAddress(c.address) := (c.resource.subdomain, c.resource.policy)])
      else before
  }

  function ApplyChanges(cfg: Config, exts: Exts, t: Tables, cs: seq<Change>, version: nat): Option<Tables> {
    if cs == [] then Some(t)
    else
      var before := ApplyChanges(cfg, exts, t, cs[..|cs| - 1], version);
      if before == None then None else ApplyChange(cfg, exts, before.value, cs[|cs| - 1], version, |cs| - 1)
  }

  function ApplyTxn(cfg: Config, t: Tables, x: Transaction): Option<Tables> {
    if !x.isUser then Some(t)
    else
      var t1 := ApplyEvents(t, x.events, x.version);
      if t1 == None then None
      else
        var exts := CollectExts(x.changes);
        if exts == None then None else ApplyChanges(cfg, exts.value, t1.value, x.changes, x.version)
  }

  /** The tables after a list of transactions; none when something panicked. */
  function ParseAll(cfg: Config, xs: seq<Transaction>): Option<Tables> {
    if xs == [] then Some(EMPTY_TABLES)
    else
      var before := ParseAll(cfg, xs[..|xs| - 1]);
      if before == None then None else ApplyTxn(cfg, before.value, xs[|xs| - 1])
  }

  /** The parser as it runs: nested loops over transactions, events and changes. */
  method ParseAns(cfg: Config, xs: seq<Transaction>) returns (result: Option<Tables>)
    ensures result == ParseAll(cfg, xs)
  {
    var t := EMPTY_TABLES;
    for i := 0 to |xs|
      invariant ParseAll(cfg, xs[..i]) == Some(t)
    {
      var x := xs[i];
      assert xs[..i + 1][..i] == xs[..i];
      var r := ParseTransaction(cfg, t, x);
      if r == None {
        PanicIsFinal(cfg, xs, i + 1);
        return None;
      }
      t := r.value;
    }
    assert xs[..|xs|] == xs;
    return Some(t);
  }

  lemma {:induction false} PanicIsFinal(cfg: Config, xs: seq<Transaction>, i: nat)
    requires i <= |xs| && ParseAll(cfg, xs[..i]) == None
    ensures ParseAll(cfg, xs) == None
    decreases |xs| - i
  {
    if i == |xs| {
      assert xs[..i] == xs;
    } else {
      assert xs[..i + 1][..i] == xs[..i];
      PanicIsFinal(cfg, xs, i + 1);
    }
  }

  method ParseTransaction(cfg: Config, before: Tables, x: Transaction) returns (result: Option<Tables>)
    ensures result == ApplyTxn(cfg, before, x)
  {
    if !x.isUser { return Some(before); }
    result := Some(before);
    for i := 0 to |x.events|
      invariant result == ApplyEvents(before, x.events[..i], x.version)
    {
      assert x.events[..i + 1][..i] == x.events[..i];
      if result.Some? { result := ApplyEvent(result.value, x.events[i], x.version, i); }
    }
    assert x.events[..|x.events|] == x.events;
    if result == None { return; }
    ghost var t1 := result.value;
    var exts: Option<Exts> := Some(map[]);
    for i := 0 to |x.changes|
      invariant exts == CollectExts(x.changes[..i])
    {
      assert x.changes[..i + 1][..i] == x.changes[..i];
      var c := x.changes[i];
      if exts.Some? && c.WriteResource? {
        if c.resource.BadResource? {
          exts := None;
        } else if c.resource.SubdomainExt? {
          exts := Some(exts.value[StandardizeAddress(c.address) := (c.resource.subdomain, c.resource.policy)]);
        }
      }
    }
    assert x.changes[..|x.changes|] == x.changes;
    if exts == None { return None; }
    for i := 0 to |x.changes|
      invariant result == ApplyChanges(cfg, exts.value, t1, x.changes[..i], x.version)
    {
      assert x.changes[..i + 1][..i] == x.changes[..i];
      if result.Some? { result := ApplyChange(cfg, exts.value, result.value, x.changes[i], x.version, i); }
    }
  }

  // ---------- What every event and change keeps, every parse keeps ----------

  ghost predicate KeptByEvents(inv: Tables -> bool) {
    forall t, e, v: nat, i: nat | inv(t) && ApplyEvent(t, e, v, i).Some? :: inv(ApplyEvent(t, e, v, i).value)
  }

  ghost predicate KeptByChanges(cfg: Config, inv: Tables -> bool) {
    forall exts, t, c, v: nat, i: nat | inv(t) && ApplyChange(cfg, exts, t, c, v, i).Some? ::
      inv(ApplyChange(cfg, exts, t, c, v, i).value)
  }

  lemma {:induction false} EventsKeep(inv: Tables -> bool, t: Tables, es: seq<Event>, version: nat)
    requires KeptByEvents(inv) && inv(t)
    ensures var r := ApplyEvents(t, es, version); r.Some? ==> inv(r.value)
  {
    if es != [] { EventsKeep(inv, t, es[..|es| - 1], version); }
  }

  lemma {:induction false} ChangesKeep(
    cfg: Config, inv: Tables -> bool, exts: Exts, t: Tables, cs: seq<Change>, version: nat)
    requires KeptByChanges(cfg, inv) && inv(t)
    ensures var r := ApplyChanges(cfg, exts, t, cs, version); r.Some? ==> inv(r.value)
  {
    if cs != [] { ChangesKeep(cfg, inv, exts, t, cs[..|cs| - 1], version); }
  }

  /** A property of the empty tables that single events and changes keep holds after every list of
      transactions. */
  lemma {:induction false} ParseKeeps(cfg: Config, inv: Tables -> bool, xs: seq<Transaction>)
    requires inv(EMPTY_TABLES) && KeptByEvents(inv) && KeptByChanges(cfg, inv) && ParseAll(cfg, xs).Some?
    ensures inv(ParseAll(cfg, xs).value)
  {
    if xs != [] {
      var x := xs[|xs| - 1];
      ParseKeeps(cfg, inv, xs[..|xs| - 1]);
      var before := ParseAll(cfg, xs[..|xs| - 1]).value;
      if x.isUser {
        EventsKeep(inv, before, x.events, x.version);
        var t1 := ApplyEvents(before, x.events, x.version).value;
        ChangesKeep(cfg, inv, CollectExts(x.changes).value, t1, x.changes, x.version);
      }
    }
  }

  // ---------- Mirroring ----------

  /** A v2 row without the columns that v1 does not have. */
  function LookupFromV2(c: CurrentLookupV2): CurrentLookup {
    CurrentLookup(domain := c.domain, subdomain := c.subdomain, registered := c.registered,
                  lastVersion := c.lastVersion, expiration := c.expiration, tokenName := c.tokenName,
                  isDeleted := c.isDeleted)
  }

  function LookupRowFromV2(h: LookupV2): Lookup {
    Lookup(version := h.version, index := h.index, domain := h.domain, subdomain := h.subdomain,
           registered := h.registered, expiration := h.expiration, tokenName := h.tokenName, isDeleted := h.isDeleted)
  }

  function NameFromV2(c: CurrentNameV2): CurrentName {
    CurrentName(registered := c.registered, domain := c.domain, subdomain := c.subdomain,
                tokenName := c.tokenName, isDeleted := c.isDeleted, lastVersion := c.lastVersion)
  }

  function NameRowFromV2(h: NameV2): Name {
    Name(version := h.version, index := h.index, registered := h.registered, domain := h.domain,
         subdomain := h.subdomain, tokenName := h.tokenName, isDeleted := h.isDeleted)
  }

  /** The v1 rows of a v2 history, in order. */
  function V1Lookups(rows: seq<LookupV2>): seq<Lookup> {
    if rows == [] then []
    else
      var h := rows[|rows| - 1];
      V1Lookups(rows[..|rows| - 1]) + (if h.standard == V1 then [LookupRowFromV2(h)] else [])
  }

  function V1Names(rows: seq<NameV2>): seq<Name> {
    if rows == [] then []
    else
      var h := rows[|rows| - 1];
      V1Names(rows[..|rows| - 1]) + (if h.standard == V1 then [NameRowFromV2(h)] else [])
  }

  /** The v1 lookups are the v1 slice of the v2 lookups: same keys, same rows, no expiration policy. */
  ghost predicate LookupsMirrored(v1: map<LookupKey, CurrentLookup>, v2: map<LookupV2Key, CurrentLookupV2>) {
    && (forall k: LookupKey :: k in v1 <==> (k.0, k.1, V1) in v2)
    && (forall k <- v1 ::
          var c := v2[(k.0, k.1, V1)]; LookupFromV2(c) == v1[k] && c.standard == V1 && c.policy == None)
  }

  ghost predicate NamesMirrored(v1: map<string, CurrentName>, v2: map<NameV2Key, CurrentNameV2>) {
    && (forall a: string :: a in v1 <==> (a, V1) in v2)
    && (forall a <- v1 :: NameFromV2(v2[(a, V1)]) == v1[a] && v2[(a, V1)].standard == V1)
  }

  /** The v1 tables are the v1 slices of the v2 tables, and the v1 histories the v1 rows of the v2
      histories in the same order. */
  ghost predicate Mirrored(t: Tables) {
    && LookupsMirrored(t.lookups, t.lookupsV2) && NamesMirrored(t.names, t.namesV2)
    && V1Lookups(t.lookupRowsV2) == t.lookupRows
    && V1Names(t.nameRowsV2) == t.nameRows
  }

  lemma PutLookupMirrors(t: Tables, c: CurrentLookup, h: Lookup)
    requires Mirrored(t)
    ensures Mirrored(PutLookup(t, c, h))
  {
    assert (t.lookupRowsV2 + [LookupRowToV2(h)])[..|t.lookupRowsV2|] == t.lookupRowsV2;
  }

  lemma PutNameMirrors(t: Tables, c: CurrentName, h: Name)
    requires Mirrored(t)
    ensures Mirrored(PutName(t, c, h))
  {
    assert (t.nameRowsV2 + [NameRowToV2(h)])[..|t.nameRowsV2|] == t.nameRowsV2;
  }

  lemma PutLookupV2Mirrors(t: Tables, c: CurrentLookupV2, h: LookupV2)
    requires Mirrored(t) && c.standard == h.standard == V2
    ensures Mirrored(PutLookupV2(t, c, h))
  {
    assert (t.lookupRowsV2 + [h])[..|t.lookupRowsV2|] == t.lookupRowsV2;
  }

  lemma PutNameV2Mirrors(t: Tables, c: CurrentNameV2, h: NameV2)
    requires Mirrored(t) && c.standard == h.standard == V2
    ensures Mirrored(PutNameV2(t, c, h))
  {
    assert (t.nameRowsV2 + [h])[..|t.nameRowsV2|] == t.nameRowsV2;
  }

  lemma TableItemMirrors(t: Tables, l: Parsed<CurrentLookup, Lookup>, n: Parsed<CurrentName, Name>)
    requires Mirrored(t) && AfterLookup(t, l).Some? && AfterName(AfterLookup(t, l).value, n).Some?
    ensures Mirrored(AfterName(AfterLookup(t, l).value, n).value)
  {
    if l.Got? { PutLookupMirrors(t, l.current, l.history); }
    if n.Got? { PutNameMirrors(AfterLookup(t, l).value, n.current, n.history); }
  }

  lemma ChangeMirrors(cfg: Config, exts: Exts, t: Tables, c: Change, version: nat, i: nat)
    requires Mirrored(t) && ApplyChange(cfg, exts, t, c, version, i).Some?
    ensures Mirrored(ApplyChange(cfg, exts, t, c, version, i).value)
  {
    match c
    case WriteTableItem(handle, data) =>
      TableItemMirrors(t, ParseLookupWrite(cfg, handle, data, version, i), ParseNameWrite(cfg, handle, data, version, i));
    case DeleteTableItem(handle, key) =>
      TableItemMirrors(t, ParseLookupDelete(cfg, handle, key, version, i), ParseNameDelete(cfg, handle, key, version, i));
    case WriteResource(address, res) =>
      var r := ParseLookupResource(exts, address, res, version, i);
      if r.Got? { PutLookupV2Mirrors(t, r.current, r.history); }
    case OtherChange =>
  }

  lemma EventMirrors(t: Tables, e: Event, version: nat, i: nat)
    requires Mirrored(t)
    ensures var r := ApplyEvent(t, e, version, i); r.Some? ==> Mirrored(r.value)
  {
    var r := ParseNameEvent(e, version, i);
    if r.Got? { PutNameV2Mirrors(t, r.current, r.history); }
  }

  /** For every list of transactions, however v2 events and resources interleave with v1 changes, the
      v1 tables are the v1 slices of the v2 tables. */
  lemma V1MirrorsV2(cfg: Config, xs: seq<Transaction>)
    requires ParseAll(cfg, xs).Some?
    ensures Mirrored(ParseAll(cfg, xs).value)
  {
    var inv := (t: Tables) => Mirrored(t);
    assert KeptByEvents(inv) by {
      forall t, e, v: nat, i: nat | inv(t) && ApplyEvent(t, e, v, i).Some?
        ensures inv(ApplyEvent(t, e, v, i).value) { EventMirrors(t, e, v, i); }
    }
    assert KeptByChanges(cfg, inv) by {
      forall exts, t, c, v: nat, i: nat | inv(t) && ApplyChange(cfg, exts, t, c, v, i).Some?
        ensures inv(ApplyChange(cfg, exts, t, c, v, i).value) { ChangeMirrors(cfg, exts, t, c, v, i); }
    }
    ParseKeeps(cfg, inv, xs);
  }

  // ---------- Current tables are the last history rows ----------

  /** The current row that goes with a history row. */
  function LookupOf(h: LookupV2): CurrentLookupV2 {
    CurrentLookupV2(domain := h.domain, subdomain := h.subdomain, standard := h.standard,
                    registered := h.registered, lastVersion := h.version, expiration := h.expiration,
                    tokenName := h.tokenName, isDeleted := h.isDeleted, policy := h.policy)
  }

  function NameOf(h: NameV2): CurrentNameV2 {
    CurrentNameV2(registered := h.registered, standard := h.standard, domain := h.domain,
                  subdomain := h.subdomain, tokenName := h.tokenName, isDeleted := h.isDeleted,
                  lastVersion := h.version)
  }

  /** The last history row whose current row has key `k`. */
  function LastLookup(rows: seq<LookupV2>, k: LookupV2Key): Option<LookupV2> {
    if rows == [] then None
    else if PkLookupV2(LookupOf(rows[|rows| - 1])) == k then Some(rows[|rows| - 1])
    else LastLookup(rows[..|rows| - 1], k)
  }

  function LastName(rows: seq<NameV2>, k: NameV2Key): Option<NameV2> {
    if rows == [] then None
    else if PkNameV2(NameOf(rows[|rows| - 1])) == k then Some(rows[|rows| - 1])
    else LastName(rows[..|rows| - 1], k)
  }

  ghost predicate LookupsAreLatest(current: map<LookupV2Key, CurrentLookupV2>, rows: seq<LookupV2>) {
    forall k: LookupV2Key ::
      && (k in current <==> LastLookup(rows, k).Some?)
      && (k in current ==> current[k] == LookupOf(LastLookup(rows, k).value))
  }

  ghost predicate NamesAreLatest(current: map<NameV2Key, CurrentNameV2>, rows: seq<NameV2>) {
    forall k: NameV2Key ::
      && (k in current <==> LastName(rows, k).Some?)
      && (k in current ==> current[k] == NameOf(LastName(rows, k).value))
  }

  /** Each v2 current table holds, for every key of its history, the last history row, and nothing else. */
  ghost predicate CurrentIsLatest(t: Tables) {
    LookupsAreLatest(t.lookupsV2, t.lookupRowsV2) && NamesAreLatest(t.namesV2, t.nameRowsV2)
  }

  lemma PutLookupV2Latest(t: Tables, c: CurrentLookupV2, h: LookupV2)
    requires CurrentIsLatest(t) && c == LookupOf(h)
    ensures CurrentIsLatest(PutLookupV2(t, c, h))
  {
    var rows := t.lookupRowsV2 + [h];
    assert rows[..|rows| - 1] == t.lookupRowsV2;
    forall k: LookupV2Key
      ensures LastLookup(rows, k) == if PkLookupV2(c) == k then Some(h) else LastLookup(t.lookupRowsV2, k) {
    }
  }

  lemma PutNameV2Latest(t: Tables, c: CurrentNameV2, h: NameV2)
    requires CurrentIsLatest(t) && c == NameOf(h)
    ensures CurrentIsLatest(PutNameV2(t, c, h))
  {
    var rows := t.nameRowsV2 + [h];
    assert rows[..|rows| - 1] == t.nameRowsV2;
    forall k: NameV2Key
      ensures LastName(rows, k) == if PkNameV2(c) == k then Some(h) else LastName(t.nameRowsV2, k) {
    }
  }

  lemma TableItemLatest(t: Tables, l: Parsed<CurrentLookup, Lookup>, n: Parsed<CurrentName, Name>)
    requires CurrentIsLatest(t)
    requires l.Got? ==> LookupToV2(l.current) == LookupOf(LookupRowToV2(l.history))
    requires n.Got? ==> NameToV2(n.current) == NameOf(NameRowToV2(n.history))
    requires AfterLookup(t, l).Some? && AfterName(AfterLookup(t, l).value, n).Some?
    ensures CurrentIsLatest(AfterName(AfterLookup(t, l).value, n).value)
  {
    if l.Got? { PutLookupV2Latest(t, LookupToV2(l.current), LookupRowToV2(l.history)); }
    var t1 := AfterLookup(t, l).value;
    assert CurrentIsLatest(t1);
    if n.Got? { PutNameV2Latest(t1, NameToV2(n.current), NameRowToV2(n.history)); }
  }

  lemma ChangeLatest(cfg: Config, exts: Exts, t: Tables, c: Change, version: nat, i: nat)
    requires CurrentIsLatest(t) && ApplyChange(cfg, exts, t, c, version, i).Some?
    ensures CurrentIsLatest(ApplyChange(cfg, exts, t, c, version, i).value)
  {
    match c
    case WriteTableItem(handle, data) =>
      TableItemLatest(t, ParseLookupWrite(cfg, handle, data, version, i), ParseNameWrite(cfg, handle, data, version, i));
    case DeleteTableItem(handle, key) =>
      TableItemLatest(t, ParseLookupDelete(cfg, handle, key, version, i), ParseNameDelete(cfg, handle, key, version, i));
    case WriteResource(address, res) =>
      var r := ParseLookupResource(exts, address, res, version, i);
      if r.Got? { PutLookupV2Latest(t, r.current, r.history); }
    case OtherChange =>
  }

  lemma EventLatest(t: Tables, e: Event, version: nat, i: nat)
    requires CurrentIsLatest(t) && ApplyEvent(t, e, version, i).Some?
    ensures CurrentIsLatest(ApplyEvent(t, e, version, i).value)
  {
    var r := ParseNameEvent(e, version, i);
    if r.Got? { PutNameV2Latest(t, r.current, r.history); }
  }

  /** For every list of transactions, the current v2 tables are their histories' last rows by key. */
  lemma CurrentTablesAreLatestHistory(cfg: Config, xs: seq<Transaction>)
    requires ParseAll(cfg, xs).Some?
    ensures CurrentIsLatest(ParseAll(cfg, xs).value)
  {
    var inv := (t: Tables) => CurrentIsLatest(t);
    assert KeptByEvents(inv) by {
      forall t, e, v: nat, i: nat | inv(t) && ApplyEvent(t, e, v, i).Some?
        ensures inv(ApplyEvent(t, e, v, i).value) { EventLatest(t, e, v, i); }
    }
    assert KeptByChanges(cfg, inv) by {
      forall exts, t, c, v: nat, i: nat | inv(t) && ApplyChange(cfg, exts, t, c, v, i).Some?
        ensures inv(ApplyChange(cfg, exts, t, c, v, i).value) { ChangeLatest(cfg, exts, t, c, v, i); }
    }
    ParseKeeps(cfg, inv, xs);
  }

  // ---------- Rows are consistent, and token names identify them ----------

  ghost predicate StandardAddress(a: string) {
    StandardizeAddress(a) == a
  }

  /** A lookup row: names within the limit, its own token name, a standard address, and nothing but the
      name once deleted, which v2 rows never are. */
  ghost predicate LookupRowOk(h: LookupV2) {
    && |h.domain| <= DOMAIN_LENGTH && |h.subdomain| <= DOMAIN_LENGTH
    && h.tokenName == TokenName(h.domain, h.subdomain)
    && (h.registered.Some? ==> StandardAddress(h.registered.value))
    && (h.isDeleted ==> h.standard == V1 && h.registered == None && h.expiration == 0)
    && (h.policy.Some? ==> h.standard == V2)
  }

  /** A primary name row: a standard address, and a name with its token name exactly while not deleted.
      A v2 name is never empty, since that is how a v2 event says that it is gone. */
  ghost predicate NameRowOk(h: NameV2) {
    && StandardAddress(h.registered)
    && (h.isDeleted <==> h.domain == None) && (h.isDeleted <==> h.subdomain == None)
    && (h.isDeleted <==> h.tokenName == None)
    && (!h.isDeleted ==>
          && |h.domain.value| <= DOMAIN_LENGTH && |h.subdomain.value| <= DOMAIN_LENGTH
          && h.tokenName.value == TokenName(h.domain.value, h.subdomain.value)
          && (h.standard == V2 ==> h.domain.value != ""))
    && (h.index < 0 <==> h.standard == V2)
  }

  ghost predicate RowsOk(t: Tables) {
    (forall h <- t.lookupRowsV2 :: LookupRowOk(h)) && (forall h <- t.nameRowsV2 :: NameRowOk(h))
  }

  lemma ParsedLookupsOk(cfg: Config, handle: string, data: Option<(Decoded, Decoded)>, key: Option<Decoded>, v: nat, i: nat)
    ensures var r := ParseLookupWrite(cfg, handle, data, v, i); r.Got? ==> LookupRowOk(LookupRowToV2(r.history))
    ensures var r := ParseLookupDelete(cfg, handle, key, v, i); r.Got? ==> LookupRowOk(LookupRowToV2(r.history))
  {
    forall a: string ensures StandardAddress(StandardizeAddress(a)) { StandardizeIdempotent(a); }
  }

  lemma ParsedNamesOk(cfg: Config, handle: string, data: Option<(Decoded, Decoded)>, key: Option<Decoded>, v: nat, i: nat)
    ensures var r := ParseNameWrite(cfg, handle, data, v, i); r.Got? ==> NameRowOk(NameRowToV2(r.history))
    ensures var r := ParseNameDelete(cfg, handle, key, v, i); r.Got? ==> NameRowOk(NameRowToV2(r.history))
  {
    forall a: string ensures StandardAddress(StandardizeAddress(a)) { StandardizeIdempotent(a); }
  }

  lemma ParsedV2RowsOk(exts: Exts, address: string, res: Resource, e: Event, v: nat, i: nat)
    ensures var r := ParseLookupResource(exts, address, res, v, i); r.Got? ==> LookupRowOk(r.history)
    ensures var r := ParseNameEvent(e, v, i); r.Got? ==> NameRowOk(r.history)
  {
    forall a: string ensures StandardAddress(StandardizeAddress(a)) { StandardizeIdempotent(a); }
  }

  lemma ChangeRowsOk(cfg: Config, exts: Exts, t: Tables, c: Change, v: nat, i: nat)
    requires RowsOk(t) && ApplyChange(cfg, exts, t, c, v, i).Some?
    ensures RowsOk(ApplyChange(cfg, exts, t, c, v, i).value)
  {
    match c
    case WriteTableItem(handle, data) =>
      ParsedLookupsOk(cfg, handle, data, None, v, i);
      ParsedNamesOk(cfg, handle, data, None, v, i);
    case DeleteTableItem(handle, key) =>
      ParsedLookupsOk(cfg, handle, None, key, v, i);
      ParsedNamesOk(cfg, handle, None, key, v, i);
    case WriteResource(address, res) => ParsedV2RowsOk(exts, address, res, OtherEvent, v, i);
    case OtherChange =>
  }

  lemma RowsAreConsistent(cfg: Config, xs: seq<Transaction>)
    requires ParseAll(cfg, xs).Some?
    ensures RowsOk(ParseAll(cfg, xs).value)
  {
    var inv := (t: Tables) => RowsOk(t);
    assert KeptByEvents(inv) by {
      forall t, e, v: nat, i: nat | inv(t) && ApplyEvent(t, e, v, i).Some?
        ensures inv(ApplyEvent(t, e, v, i).value) { ParsedV2RowsOk(map[], "", OtherResource, e, v, i); }
    }
    assert KeptByChanges(cfg, inv) by {
      forall exts, t, c, v: nat, i: nat | inv(t) && ApplyChange(cfg, exts, t, c, v, i).Some?
        ensures inv(ApplyChange(cfg, exts, t, c, v, i).value) { ChangeRowsOk(cfg, exts, t, c, v, i); }
    }
    ParseKeeps(cfg, inv, xs);
  }

  /** The part of a token name before the suffix. */
  function Stem(domain: string, subdomain: string): string {
    if subdomain == "" then domain else subdomain + "." + domain
  }

  /** The text of (d, s), read with another dot as the separator, is (d', s'). */
  ghost predicate Clashes(d: string, s: string, d': string, s': string) {
    && s != ""
    && ((s' == "" && d' == s + "." + d) || exists x: string :: s' == s + "." + x && d == x + "." + d')
  }

  lemma TokenNameStem(domain: string, subdomain: string)
    requires |domain| <= DOMAIN_LENGTH && |subdomain| <= DOMAIN_LENGTH
    ensures TokenName(domain, subdomain) == Stem(domain, subdomain) + ".apt"
  {
    if subdomain != "" {
      assert subdomain + "." + (domain + ".apt") == (subdomain + "." + domain) + ".apt";
    }
  }

  lemma ClashesShareStem(d: string, s: string, d': string, s': string)
    requires Clashes(d, s, d', s')
    ensures Stem(d, s) == Stem(d', s') && (d != d' || s != s')
  {
    if s' != "" {
      var x: string :| s' == s + "." + x && d == x + "." + d';
      assert s + "." + (x + "." + d') == s + "." + x + "." + d';
    }
  }

  /** One stem, split at two different dots. */
  lemma ShorterSplitClashes(d: string, s: string, d': string, s': string)
    requires Stem(d, s) == Stem(d', s') && s != "" && (s' == "" || |s| < |s'|)
    ensures Clashes(d, s, d', s')
  {
    var stem := Stem(d, s);
    if s' != "" {
      var x := s'[|s| + 1..];
      assert s == stem[..|s|] && s' == stem[..|s'|] && stem[|s|] == '.';
      assert s' == s + "." + x;
      assert d == stem[|s| + 1..] && stem == s' + "." + d';
      assert d == x + "." + d';
    }
  }

  lemma StemsEqualIff(d: string, s: string, d': string, s': string)
    ensures Stem(d, s) == Stem(d', s') <==>
              (d == d' && s == s') || Clashes(d, s, d', s') || Clashes(d', s', d, s)
  {
    if Clashes(d, s, d', s') { ClashesShareStem(d, s, d', s'); }
    if Clashes(d', s', d, s) { ClashesShareStem(d', s', d, s); }
    var stem := Stem(d, s);
    if stem == Stem(d', s') {
      if s != "" && (s' == "" || |s| < |s'|) {
        ShorterSplitClashes(d, s, d', s');
      } else if s' != "" && (s == "" || |s'| < |s|) {
        ShorterSplitClashes(d', s', d, s);
      } else if s != "" {
        assert s == stem[..|s|] == s' && d == stem[|s| + 1..] == d';
      }
    }
  }

  /** Two names share a token name exactly when they are the same name or one clashes with the other. */
  lemma TokenNamesEqualIff(d: string, s: string, d': string, s': string)
    requires |d| <= DOMAIN_LENGTH && |s| <= DOMAIN_LENGTH && |d'| <= DOMAIN_LENGTH && |s'| <= DOMAIN_LENGTH
    ensures TokenName(d, s) == TokenName(d', s') <==>
              (d == d' && s == s') || Clashes(d, s, d', s') || Clashes(d', s', d, s)
  {
    TokenNameStem(d, s);
    TokenNameStem(d', s');
    StemsEqualIff(d, s, d', s');
    var n, n' := |Stem(d, s)|, |Stem(d', s')|;
    assert TokenName(d, s)[..n] == Stem(d, s) && TokenName(d', s')[..n'] == Stem(d', s');
  }

  /** Only names with dots are clashed with. */
  lemma ClashNeedsDot(d: string, s: string, d': string, s': string)
    requires Clashes(d, s, d', s')
    ensures '.' in d' || '.' in s'
  {
    assert s' == "" ==> d'[|s|] == '.';
    assert s' != "" ==> s'[|s|] == '.';
  }

  lemma {:induction false} LastLookupIsRow(rows: seq<LookupV2>, k: LookupV2Key)
    requires LastLookup(rows, k).Some?
    ensures LastLookup(rows, k).value in rows && PkLookupV2(LookupOf(LastLookup(rows, k).value)) == k
  {
    if PkLookupV2(LookupOf(rows[|rows| - 1])) != k { LastLookupIsRow(rows[..|rows| - 1], k); }
  }

  ghost predicate KeysClash(k: LookupV2Key, k': LookupV2Key) {
    Clashes(k.0, k.1, k'.0, k'.1) || Clashes(k'.0, k'.1, k.0, k.1)
  }

  /** After every list of transactions, two current lookups of one standard share a token name exactly
      when they are the same lookup or their names clash. */
  lemma TokenNamesIdentifyLookups(cfg: Config, xs: seq<Transaction>, k: LookupV2Key, k': LookupV2Key)
    requires ParseAll(cfg, xs).Some?
    requires var m := ParseAll(cfg, xs).value.lookupsV2; k in m && k' in m
    requires k.2 == k'.2
    ensures var m := ParseAll(cfg, xs).value.lookupsV2;
            m[k].tokenName == m[k'].tokenName <==> k == k' || KeysClash(k, k')
  {
    RowsAreConsistent(cfg, xs);
    CurrentTablesAreLatestHistory(cfg, xs);
    var rows := ParseAll(cfg, xs).value.lookupRowsV2;
    LastLookupIsRow(rows, k);
    LastLookupIsRow(rows, k');
    TokenNamesEqualIff(k.0, k.1, k'.0, k'.1);
  }

  /** One transaction that registers the subdomain b of a and the domain b.a: both are current, under one
      token name. */
  lemma DottedNamesCollide()
    ensures var cfg := Config("p", "n");
            var record := NameRecord(9, None);
            var x := Transaction(1, true, [], [WriteTableItem("n", Some((NameKey("a", Some("b")), record))),
                                               WriteTableItem("n", Some((NameKey("b.a", None), record)))]);
            && ParseAll(cfg, [x]).Some?
            && var m := ParseAll(cfg, [x]).value.lookupsV2;
               && ("a", "b", V1) in m && ("b.a", "", V1) in m
               && m[("a", "b", V1)].tokenName == m[("b.a", "", V1)].tokenName == "b.a.apt"
  {
    var cfg := Config("p", "n");
    var c, d := LookupWrite(cfg, "a", Some("b")), LookupWrite(cfg, "b.a", None);
    var x := Transaction(1, true, [], [c, d]);
    assert [x][..0] == [] && [c, d][..1] == [c] && [c][..0] == [];
    assert ParseAll(cfg, []) == Some(EMPTY_TABLES);
    assert CollectExts([]) == Some(map[]) && CollectExts([c]) == Some(map[]) && CollectExts([c, d]) == Some(map[]);
    TwoLookups(cfg, EMPTY_TABLES, "a", Some("b"), "b.a", None, 1);
    TokenNameStem("a", "b");
    TokenNameStem("b.a", "");
  }

  function LookupWrite(cfg: Config, domain: string, subdomain: Option<string>): Change {
    WriteTableItem(cfg.nameRecordsHandle, Some((NameKey(domain, subdomain), NameRecord(9, None))))
  }

  function LookupKeyOf(domain: string, subdomain: Option<string>): LookupV2Key {
    (Truncate(domain), Truncate(OrEmpty(subdomain)), V1)
  }

  lemma OneLookup(cfg: Config, t: Tables, domain: string, subdomain: Option<string>, v: nat, i: nat)
    ensures var r, k := ApplyChange(cfg, map[], t, LookupWrite(cfg, domain, subdomain), v, i), LookupKeyOf(domain, subdomain);
            && r.Some? && k in r.value.lookupsV2
            && r.value.lookupsV2[k].tokenName == TokenName(k.0, k.1)
            && r.value.lookupsV2 == t.lookupsV2[k := r.value.lookupsV2[k]]
  {
  }

  lemma TwoLookups(
    cfg: Config, t: Tables, d: string, s: Option<string>, d': string, s': Option<string>, v: nat)
    requires LookupKeyOf(d, s) != LookupKeyOf(d', s')
    ensures var r := ApplyChanges(cfg, map[], t, [LookupWrite(cfg, d, s), LookupWrite(cfg, d', s')], v);
            var k, k' := LookupKeyOf(d, s), LookupKeyOf(d', s');
            && r.Some? && k in r.value.lookupsV2 && k' in r.value.lookupsV2
            && r.value.lookupsV2[k].tokenName == TokenName(k.0, k.1)
            && r.value.lookupsV2[k'].tokenName == TokenName(k'.0, k'.1)
  {
    var c, c' := LookupWrite(cfg, d, s), LookupWrite(cfg, d', s');
    OneLookup(cfg, t, d, s, v, 0);
    var t1 := ApplyChange(cfg, map[], t, c, v, 0).value;
    OneLookup(cfg, t1, d', s', v, 1);
    assert [c, c'][..1] == [c] && [c][..0] == [];
    assert ApplyChanges(cfg, map[], t, [c], v) == Some(t1);
  }

  // ---------- Uniqueness of history keys ----------

  ghost predicate UniqueLookups(rows: seq<LookupV2>) {
    forall i, j | 0 <= i < j < |rows| ::
      rows[i].version != rows[j].version || rows[i].index != rows[j].index
  }

  ghost predicate UniqueNames(rows: seq<NameV2>) {
    forall i, j | 0 <= i < j < |rows| ::
      rows[i].version != rows[j].version || rows[i].index != rows[j].index
  }

  /** Rows of version `v` have indices from `lo` up to but not including `hi`. */
  ghost predicate Indexed(t: Tables, v: nat, lo: int, hi: int) {
    && (forall r <- t.lookupRowsV2 :: r.version == v ==> lo <= r.index < hi)
    && (forall r <- t.nameRowsV2 :: r.version == v ==> lo <= r.index < hi)
  }

  ghost predicate OnlyVersions(t: Tables, vs: set<nat>) {
    (forall r <- t.lookupRowsV2 :: r.version in vs) && (forall r <- t.nameRowsV2 :: r.version in vs)
  }

  ghost predicate Unique(t: Tables) {
    UniqueLookups(t.lookupRowsV2) && UniqueNames(t.nameRowsV2)
  }

  /** Everything the uniqueness proof carries about the rows written so far. */
  ghost predicate Tidy(t: Tables, v: nat, lo: int, hi: int, vs: set<nat>) {
    Unique(t) && Indexed(t, v, lo, hi) && OnlyVersions(t, vs) && v in vs
  }

  ghost predicate TidyLookups(rows: seq<LookupV2>, v: nat, lo: int, hi: int, vs: set<nat>) {
    && UniqueLookups(rows)
    && (forall r <- rows :: r.version == v ==> lo <= r.index < hi)
    && (forall r <- rows :: r.version in vs)
  }

  ghost predicate TidyNames(rows: seq<NameV2>, v: nat, lo: int, hi: int, vs: set<nat>) {
    && UniqueNames(rows)
    && (forall r <- rows :: r.version == v ==> lo <= r.index < hi)
    && (forall r <- rows :: r.version in vs)
  }

  lemma AppendLookup(rows: seq<LookupV2>, h: LookupV2, v: nat, lo: int, hi: int, vs: set<nat>)
    requires TidyLookups(rows, v, lo, hi, vs) && h.version == v && v in vs && lo <= hi <= h.index
    ensures TidyLookups(rows + [h], v, lo, h.index + 1, vs)
  {
  }

  lemma AppendName(rows: seq<NameV2>, h: NameV2, v: nat, lo: int, hi: int, vs: set<nat>)
    requires TidyNames(rows, v, lo, hi, vs) && h.version == v && v in vs
    ensures lo <= hi <= h.index ==> TidyNames(rows + [h], v, lo, h.index + 1, vs)
    ensures h.index < lo <= hi ==> TidyNames(rows + [h], v, h.index, hi, vs)
  {
  }

  lemma EventUnique(t: Tables, e: Event, v: nat, i: nat, vs: set<nat>)
    requires Tidy(t, v, 0 - i, 0, vs)
    ensures var r := ApplyEvent(t, e, v, i); r.Some? ==> Tidy(r.value, v, 0 - (i + 1), 0, vs)
  {
    var r := ParseNameEvent(e, v, i);
    if r.Got? { AppendName(t.nameRowsV2, r.history, v, 0 - i, 0, vs); }
  }

  lemma TableItemUnique(
    t: Tables, l: Parsed<CurrentLookup, Lookup>, n: Parsed<CurrentName, Name>, v: nat, i: nat, lo: int, vs: set<nat>)
    requires Tidy(t, v, lo, i, vs) && lo <= 0
    requires l.Got? ==> l.history.version == v && l.history.index == i
    requires n.Got? ==> n.history.version == v && n.history.index == i
    requires AfterLookup(t, l).Some? && AfterName(AfterLookup(t, l).value, n).Some?
    ensures Tidy(AfterName(AfterLookup(t, l).value, n).value, v, lo, i + 1, vs)
  {
    if l.Got? { AppendLookup(t.lookupRowsV2, LookupRowToV2(l.history), v, lo, i, vs); }
    if n.Got? { AppendName(t.nameRowsV2, NameRowToV2(n.history), v, lo, i, vs); }
    var t2 := AfterName(AfterLookup(t, l).value, n).value;
    assert TidyLookups(t2.lookupRowsV2, v, lo, i + 1, vs);
    assert TidyNames(t2.nameRowsV2, v, lo, i + 1, vs);
  }

  lemma ChangeUnique(cfg: Config, exts: Exts, t: Tables, c: Change, v: nat, i: nat, lo: int, vs: set<nat>)
    requires Tidy(t, v, lo, i, vs) && lo <= 0 && ApplyChange(cfg, exts, t, c, v, i).Some?
    ensures Tidy(ApplyChange(cfg, exts, t, c, v, i).value, v, lo, i + 1, vs)
  {
    match c
    case WriteTableItem(handle, data) =>
      TableItemUnique(t, ParseLookupWrite(cfg, handle, data, v, i), ParseNameWrite(cfg, handle, data, v, i), v, i, lo, vs);
    case DeleteTableItem(handle, key) =>
      TableItemUnique(t, ParseLookupDelete(cfg, handle, key, v, i), ParseNameDelete(cfg, handle, key, v, i), v, i, lo, vs);
    case WriteResource(address, res) =>
      var r := ParseLookupResource(exts, address, res, v, i);
      if r.Got? { AppendLookup(t.lookupRowsV2, r.history, v, lo, i, vs); }
    case OtherChange =>
  }

  lemma {:induction false} EventsUnique(t: Tables, es: seq<Event>, v: nat, vs: set<nat>)
    requires Tidy(t, v, 0, 0, vs)
    ensures var r := ApplyEvents(t, es, v); r.Some? ==> Tidy(r.value, v, 0 - |es|, 0, vs)
  {
    if es != [] {
      var before := ApplyEvents(t, es[..|es| - 1], v);
      EventsUnique(t, es[..|es| - 1], v, vs);
      if before.Some? { EventUnique(before.value, es[|es| - 1], v, |es| - 1, vs); }
    }
  }

  lemma {:induction false} ChangesUnique(
    cfg: Config, exts: Exts, t: Tables, cs: seq<Change>, v: nat, lo: int, vs: set<nat>)
    requires Tidy(t, v, lo, 0, vs) && lo <= 0
    ensures var r := ApplyChanges(cfg, exts, t, cs, v); r.Some? ==> Tidy(r.value, v, lo, |cs|, vs)
  {
    if cs != [] {
      var before := ApplyChanges(cfg, exts, t, cs[..|cs| - 1], v);
      ChangesUnique(cfg, exts, t, cs[..|cs| - 1], v, lo, vs);
      if before.Some? && ApplyChanges(cfg, exts, t, cs, v).Some? {
        ChangeUnique(cfg, exts, before.value, cs[|cs| - 1], v, |cs| - 1, lo, vs);
      }
    }
  }

  function VersionsOf(xs: seq<Transaction>): set<nat> {
    set x | x in xs :: x.version
  }

  /** For transactions with distinct versions, no two rows of `ans_lookup_v2` and no two rows of
      `ans_primary_name_v2` share a version and an index. */
  lemma {:induction false} HistoryKeysAreUnique(cfg: Config, xs: seq<Transaction>)
    requires forall i, j | 0 <= i < j < |xs| :: xs[i].version != xs[j].version
    requires ParseAll(cfg, xs).Some?
    ensures Unique(ParseAll(cfg, xs).value) && OnlyVersions(ParseAll(cfg, xs).value, VersionsOf(xs))
  {
    if xs != [] {
      var front, x := xs[..|xs| - 1], xs[|xs| - 1];
      HistoryKeysAreUnique(cfg, front);
      var before, vs := ParseAll(cfg, front).value, VersionsOf(xs);
      assert x.version in vs && VersionsOf(front) <= vs;
      assert x.version !in VersionsOf(front);
      assert Indexed(before, x.version, 0, 0);
      if x.isUser {
        EventsUnique(before, x.events, x.version, vs);
        var t1 := ApplyEvents(before, x.events, x.version).value;
        ChangesUnique(cfg, CollectExts(x.changes).value, t1, x.changes, x.version, 0 - |x.events|, vs);
      }
    }
  }
}
