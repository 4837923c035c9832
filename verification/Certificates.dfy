/**
 * Certificate rows: the merging upsert, one issuance with its single retry, the freshness
 * check and the renewal tick, over any run of calls with any outcomes.
 */
module Certificates {
  import opened Text
  import Paths

  // ----- store/certificates.go -----

  datatype Status = NoStatus | IsRenewing | HasFailed | IsIssued

  datatype Cert = Cert(issuer: string, certPath: Option<string>, keyPath: Option<string>,
                       issuedAt: Option<int>, expiresAt: Option<int>,
                       status: Status, lastError: string, attempts: int)

  type Table = map<string, Cert>

  const NO_CERT := Cert("", None, None, None, None, NoStatus, "", 0)

  function Coalesce<T>(new_: Option<T>, was: Option<T>): Option<T> {
    if new_.Some? then new_ else was
  }

  /** `UpsertCertificate`: paths and dates that the new row lacks are kept from the old one. */
  function Upsert(t: Table, d: string, c: Cert): Table {
    if d !in t then t[d := c] else
    var was := t[d];
    t[d := c.(certPath := Coalesce(c.certPath, was.certPath), keyPath := Coalesce(c.keyPath, was.keyPath),
              issuedAt := Coalesce(c.issuedAt, was.issuedAt), expiresAt := Coalesce(c.expiresAt, was.expiresAt))]
  }

  const SECOND: int := 1_000_000_000
  const WINDOW: int := 30 * 24 * 3600

  /** `CertificatesExpiringWithin` as the renewal loop calls it, at a time in nanoseconds. */
  predicate Due(c: Cert, nowNs: int) {
    c.expiresAt.Some? && c.expiresAt.value - nowNs / SECOND < WINDOW
  }

  /** `EnsureCert` leaves the certificate alone. */
  predicate Fresh(c: Cert, nowNs: int) {
    c.status == IsIssued && c.expiresAt.Some? && c.expiresAt.value * SECOND - nowNs > WINDOW * SECOND
  }

  // ----- acme.go -----

  /** One `Obtain` call: a certificate with the expiry of its leaf, if that parses, or an error. */
  datatype Obtained = Issued(expiry: Option<int>) | KidError(text: string) | OtherError(text: string)

  /** Everything an issuance meets outside the panel. */
  datatype Env = Env(clientOk: bool, firstWriteOk: bool, forceDns: bool, haveToken: bool, setupOk: bool, setupError: string,
                     first: Obtained, rebuildOk: bool, rearmOk: bool, healError: string, second: Obtained,
                     hint: string, mkdirOk: bool, certWriteOk: bool, keyWriteOk: bool, lastWriteOk: bool, nowSec: int)

  /** The outcome of `obtainWithKidHeal` and how often `Obtain` was called. */
  function ObtainWithHeal(e: Env): (Obtained, nat) {
    if !e.first.KidError? then (e.first, 1)
    else if !e.rebuildOk || !e.rearmOk then (OtherError(e.healError), 1)
    else (e.second, 2)
  }

  /** The row while an issuance is under way. */
  function Renewing(t: Table, d: string): Cert {
    var prev := if d in t then t[d] else NO_CERT;
    prev.(issuer := if prev.issuer == "" then "letsencrypt" else prev.issuer,
          status := IsRenewing, attempts := prev.attempts + 1)
  }

  function ErrorText(o: Obtained): string {
    match o case Issued(_) => "" case KidError(t) => t case OtherError(t) => t
  }

  function Failed(t: Table, d: string, prev: Cert, text: string, e: Env): Table {
    if e.lastWriteOk then Upsert(t, d, prev.(status := HasFailed, lastError := text)) else t
  }

  function SaveIssued(t: Table, d: string, prev: Cert, expiry: Option<int>, e: Env): (Table, bool) {
    if !e.mkdirOk || !e.certWriteOk || !e.keyWriteOk || !e.lastWriteOk then (t, false)
    else
      (Upsert(t, d, prev.(status := IsIssued, lastError := "",
                          certPath := Some(Paths.CertPath(d)), keyPath := Some(Paths.KeyPath(d)),
                          issuedAt := Some(e.nowSec), expiresAt := Coalesce(expiry, prev.expiresAt))), true)
  }

  const NO_TOKEN := "DNS-01 was selected but no Cloudflare API token is configured. Configure one under Settings \U{2192} Cloudflare, "
    + "or turn off Cloudflare DNS-01 on this site to use HTTP-01."

  datatype Result = Result(table: Table, ok: bool, obtains: nat)

  /** An issuance that got past its first write; only these count as started. */
  predicate Started(e: Env) { e.clientOk && e.firstWriteOk }

  /** The issuance after the row has been marked: challenge set-up, obtaining, saving. */
  function Attempted(t: Table, d: string, prev: Cert, e: Env): Result {
    if e.forceDns && !e.haveToken then Result(Failed(t, d, prev, NO_TOKEN, e), false, 0)
    else if e.forceDns && !e.setupOk then Result(Failed(t, d, prev, "DNS-01 setup failed: " + e.setupError, e), false, 0)
    else if !e.setupOk then Result(t, false, 0) else
    var (got, calls) := ObtainWithHeal(e);
    if got.Issued? then
      var (t', ok) := SaveIssued(t, d, prev, got.expiry, e);
      Result(t', ok, calls)
    else
      var text := if e.forceDns then "DNS-01 (Cloudflare): " + ErrorText(got) else ErrorText(got) + e.hint;
      Result(Failed(t, d, prev, text, e), false, calls)
  }

  function Issuance(t: Table, d: string, e: Env): Result {
    if !Started(e) then Result(t, false, 0)
    else Attempted(Upsert(t, d, Renewing(t, d)), d, Renewing(t, d), e)
  }

  function Ensured(t: Table, d: string, nowNs: int, e: Env): Result {
    if d in t && Fresh(t[d], nowNs) then Result(t, true, 0) else Issuance(t, d, e)
  }

  /** The certificate manager: the table and how many `Obtain` calls it has made. */
  class Manager {
    var certificates: Table
    var obtains: nat

    constructor ()
      ensures certificates == map[] && obtains == 0
    {
      certificates, obtains := map[], 0;
    }

    method ObtainWithKidHeal(e: Env) returns (res: Obtained)
      modifies this`obtains
      ensures res == ObtainWithHeal(e).0 && obtains == old(obtains) + ObtainWithHeal(e).1
    {
      obtains := obtains + 1;
      res := e.first;
      if !res.KidError? { return; }
      if !e.rebuildOk { return OtherError(e.healError); }
      if !e.rearmOk { return OtherError(e.healError); }
      obtains := obtains + 1;
      return e.second;
    }

    method SaveIssuedCert(d: string, row: Cert, expiry: Option<int>, e: Env) returns (ok: bool)
      modifies this`certificates
      ensures (certificates, ok) == SaveIssued(old(certificates), d, row, expiry, e)
    {
      if !e.mkdirOk { return false; }
      if !e.certWriteOk { return false; }
      if !e.keyWriteOk { return false; }
      var prev := row.(status := IsIssued, lastError := "");
      prev := prev.(certPath := Some(Paths.CertPath(d)), keyPath := Some(Paths.KeyPath(d)));
      prev := prev.(issuedAt := Some(e.nowSec));
      if expiry.Some? { prev := prev.(expiresAt := expiry); }
      if !e.lastWriteOk { return false; }
      certificates := Upsert(certificates, d, prev);
      return true;
    }

    method Issue(d: string, e: Env) returns (ok: bool)
      modifies this
      ensures var r := Issuance(old(certificates), d, e);
        certificates == r.table && ok == r.ok && obtains == old(obtains) + r.obtains
    {
      hide Upsert, Attempted;
      if !e.clientOk { return false; }
      var prev := if d in certificates then certificates[d] else NO_CERT;
      if prev.issuer == "" { prev := prev.(issuer := "letsencrypt"); }
      prev := prev.(status := IsRenewing, attempts := prev.attempts + 1);
      if !e.firstWriteOk { return false; }
      assert prev == Renewing(certificates, d);
      certificates := Upsert(certificates, d, prev);
      ok := Attempt(d, prev, e);
    }

    method Attempt(d: string, prev: Cert, e: Env) returns (ok: bool)
      modifies this
      ensures var r := Attempted(old(certificates), d, prev, e);
        certificates == r.table && ok == r.ok && obtains == old(obtains) + r.obtains
    {
      hide Failed, SaveIssued, ObtainWithHeal, ErrorText;
      if e.forceDns {
        if !e.haveToken {
          certificates := Failed(certificates, d, prev, NO_TOKEN, e);
          return false;
        }
        if !e.setupOk {
          certificates := Failed(certificates, d, prev, "DNS-01 setup failed: " + e.setupError, e);
          return false;
        }
      } else if !e.setupOk {
        return false;
      }
      var res := ObtainWithKidHeal(e);
      if !res.Issued? {
        var text := if e.forceDns then "DNS-01 (Cloudflare): " + ErrorText(res) else ErrorText(res) + e.hint;
        certificates := Failed(certificates, d, prev, text, e);
        return false;
      }
      ok := SaveIssuedCert(d, prev, res.expiry, e);
    }

    method EnsureCert(d: string, nowNs: int, e: Env) returns (ok: bool)
      modifies this
      ensures var r := Ensured(old(certificates), d, nowNs, e);
        certificates == r.table && ok == r.ok && obtains == old(obtains) + r.obtains
    {
      if d in certificates {
        var cur := certificates[d];
        if cur.status == IsIssued && cur.expiresAt.Some? {
          var remaining := cur.expiresAt.value * SECOND - nowNs;
          if remaining > WINDOW * SECOND { return true; }
        }
      }
      ok := Issue(d, e);
    }

    /** The due rows, the earliest to expire first. */
    method CertificatesExpiringWithin(nowNs: int) returns (due: seq<string>)
      ensures DueList(certificates, nowNs, due)
    {
      var rest := set d | d in certificates && Due(certificates[d], nowNs);
      due := [];
      while rest != {}
        invariant forall d :: d in certificates && Due(certificates[d], nowNs) <==> d in due || d in rest
        invariant forall d :: d in due ==> d !in rest
        invariant NoRepeats(due) && ByExpiry(certificates, due)
        invariant forall d, o :: d in due && o in rest ==> ExpiryOf(certificates, d) <= ExpiryOf(certificates, o)
      {
        EarliestExists(certificates, rest);
        var d :| d in rest && Earliest(certificates, rest, d);
        due, rest := due + [d], rest - {d};
      }
    }

    /** One tick: the due rows are listed, then each is issued in turn, errors logged only. */
    method RenewDue(nowNs: int, listOk: bool, env: string -> Env)
      modifies this
      ensures if listOk then Ticked(old(certificates), certificates, nowNs, env) else certificates == old(certificates)
    {
      if !listOk { return; }
      var due := CertificatesExpiringWithin(nowNs);
      for i := 0 to |due|
        invariant Renewed(old(certificates), due, env) == Renewed(certificates, due[i..], env)
      {
        assert due[i..][0] == due[i] && due[i..][1..] == due[i + 1..];
        var ok := Issue(due[i], env(due[i]));
      }
      TickIssuesDueOnce(old(certificates), nowNs, due, env);
    }
  }

  function ExpiryOf(t: Table, d: string): int {
    if d in t && t[d].expiresAt.Some? then t[d].expiresAt.value else 0
  }

  predicate NoRepeats(due: seq<string>) { forall i, j :: 0 <= i < j < |due| ==> due[i] != due[j] }

  predicate ByExpiry(t: Table, due: seq<string>) {
    forall i, j :: 0 <= i < j < |due| ==> ExpiryOf(t, due[i]) <= ExpiryOf(t, due[j])
  }

  /** What the query returns: exactly the due rows, each once, in the order of their expiry. */
  ghost predicate DueList(t: Table, nowNs: int, due: seq<string>) {
    && (forall d :: d in due <==> d in t && Due(t[d], nowNs))
    && NoRepeats(due) && ByExpiry(t, due)
  }

  predicate Earliest(t: Table, s: set<string>, d: string) {
    d in s && forall o :: o in s ==> ExpiryOf(t, d) <= ExpiryOf(t, o)
  }

  lemma EarlierOfTwo(t: Table, s: set<string>, x: string, d: string)
    requires x in s && Earliest(t, s - {x}, d)
    ensures Earliest(t, s, if ExpiryOf(t, x) <= ExpiryOf(t, d) then x else d)
  {
    hide ExpiryOf;
    forall o | o in s ensures o == x || ExpiryOf(t, d) <= ExpiryOf(t, o) {
      assert o == x || o in s - {x};
    }
  }

  lemma {:induction false} EarliestExists(t: Table, s: set<string>)
    requires s != {}
    ensures exists d :: Earliest(t, s, d)
  {
    hide ExpiryOf;
    var x :| x in s;
    if s - {x} == {} {
      assert forall o :: o in s && o != x ==> o in s - {x};
      assert Earliest(t, s, x);
    } else {
      EarliestExists(t, s - {x});
      var d :| Earliest(t, s - {x}, d);
      EarlierOfTwo(t, s, x, d);
    }
  }

  function Renewed(t: Table, due: seq<string>, env: string -> Env): Table
    decreases |due|
  {
    if due == [] then t else Renewed(Issuance(t, due[0], env(due[0])).table, due[1..], env)
  }

  function Lookup(t: Table, d: string): Option<Cert> { if d in t then Some(t[d]) else None }

  /** Every due row got exactly one issuance of its own; every other row is as it was. */
  ghost predicate Ticked(t: Table, t': Table, nowNs: int, env: string -> Env) {
    forall d :: Lookup(t', d) ==
      if d in t && Due(t[d], nowNs) then Lookup(Issuance(t, d, env(d)).table, d) else Lookup(t, d)
  }

  /** The two tables agree on the row, and a call changed neither outside it. */
  ghost predicate Local(t: Table, t': Table, u: Table, u': Table, d: string) {
    && Lookup(t', d) == Lookup(u', d)
    && (forall o :: o != d ==> Lookup(t', o) == Lookup(t, o))
    && (forall o :: o != d ==> Lookup(u', o) == Lookup(u, o))
  }

  lemma UpsertIsLocal(t: Table, u: Table, d: string, c: Cert)
    requires Lookup(t, d) == Lookup(u, d)
    ensures Local(t, Upsert(t, d, c), u, Upsert(u, d, c), d)
  {
  }

  lemma NothingIsLocal(t: Table, u: Table, d: string)
    requires Lookup(t, d) == Lookup(u, d)
    ensures Local(t, t, u, u, d)
  {
  }

  lemma AttemptIsLocal(t: Table, u: Table, d: string, prev: Cert, e: Env)
    requires Lookup(t, d) == Lookup(u, d)
    ensures Local(t, Attempted(t, d, prev, e).table, u, Attempted(u, d, prev, e).table, d)
  {
    hide Upsert, ErrorText, ObtainWithHeal, Local, Lookup;
    NothingIsLocal(t, u, d);
    forall c ensures Local(t, Upsert(t, d, c), u, Upsert(u, d, c), d) { UpsertIsLocal(t, u, d, c); }
  }

  lemma IssuanceIsLocal(t: Table, u: Table, d: string, e: Env)
    requires Lookup(t, d) == Lookup(u, d)
    ensures Local(t, Issuance(t, d, e).table, u, Issuance(u, d, e).table, d)
  {
    hide Upsert, Attempted;
    if Started(e) {
      var prev := Renewing(t, d);
      UpsertIsLocal(t, u, d, prev);
      AttemptIsLocal(Upsert(t, d, prev), Upsert(u, d, prev), d, prev, e);
    }
  }

  lemma {:induction false} RenewedByRow(t: Table, due: seq<string>, env: string -> Env, d: string)
    requires NoRepeats(due)
    ensures Lookup(Renewed(t, due, env), d) ==
      if d in due then Lookup(Issuance(t, d, env(d)).table, d) else Lookup(t, d)
    decreases |due|
  {
    hide Issuance;
    if due != [] {
      var next := Issuance(t, due[0], env(due[0])).table;
      RenewedByRow(next, due[1..], env, d);
      IssuanceIsLocal(t, t, due[0], env(due[0]));
      if d != due[0] && d in due[1..] { IssuanceIsLocal(t, next, d, env(d)); }
    }
  }

  lemma TickIssuesDueOnce(t: Table, nowNs: int, due: seq<string>, env: string -> Env)
    requires DueList(t, nowNs, due)
    ensures Ticked(t, Renewed(t, due, env), nowNs, env)
  {
    hide Issuance, Renewed, Due;
    forall d ensures Lookup(Renewed(t, due, env), d) ==
      if d in t && Due(t[d], nowNs) then Lookup(Issuance(t, d, env(d)).table, d) else Lookup(t, d)
    {
      RenewedByRow(t, due, env, d);
    }
  }

  // ----- runs -----

  /** A renewal tick is a run of `Request` calls for the rows that are due. */
  datatype Call = Request(domain: string, env: Env) | Ensure(domain: string, nowNs: int, env: Env) | Remove(domain: string)

  function Step(t: Table, c: Call): Table {
    match c
    case Request(d, e) => Issuance(t, d, e).table
    case Ensure(d, nowNs, e) => Ensured(t, d, nowNs, e).table
    case Remove(d) => t - {d}
  }

  function Run(t: Table, calls: seq<Call>): Table
    decreases |calls|
  {
    if calls == [] then t else Run(Step(t, calls[0]), calls[1..])
  }

  /** The call starts an issuance for the domain. */
  predicate Starts(t: Table, c: Call, d: string) {
    match c
    case Request(d', e) => d' == d && Started(e)
    case Ensure(d', nowNs, e) => d' == d && Started(e) && !(d in t && Fresh(t[d], nowNs))
    case Remove(_) => false
  }

  function StartsIn(t: Table, calls: seq<Call>, d: string): nat
    decreases |calls|
  {
    if calls == [] then 0
    else (if Starts(t, calls[0], d) then 1 else 0) + StartsIn(Step(t, calls[0]), calls[1..], d)
  }

  predicate Removes(calls: seq<Call>, d: string) {
    exists i :: 0 <= i < |calls| && calls[i] == Remove(d)
  }

  function AttemptsOf(t: Table, d: string): int {
    if d in t then t[d].attempts else 0
  }

  /** Everything that was set in a row stays set. */
  ghost predicate Kept(t: Table, t': Table, d: string) {
    d in t ==> d in t' && KeptRow(t[d], t'[d])
  }

  predicate KeptRow(c: Cert, c': Cert) {
    && (c.certPath.Some? ==> c'.certPath.Some?)
    && (c.keyPath.Some? ==> c'.keyPath.Some?)
    && (c.issuedAt.Some? ==> c'.issuedAt.Some?)
    && (c.expiresAt.Some? ==> c'.expiresAt.Some?)
  }

  ghost predicate OthersSame(t: Table, t': Table, d: string) {
    forall o :: o != d ==> (o in t' <==> o in t) && (o in t ==> t'[o] == t[o])
  }

  /** The paths of a row, once set, are the domain's own two files, and an issued row has both. */
  predicate Sound(d: string, c: Cert) {
    && (c.certPath.Some? ==> c.certPath.value == "/etc/auracp/ssl/" + d + ".crt")
    && (c.keyPath.Some? ==> c.keyPath.value == "/etc/auracp/ssl/" + d + ".key")
    && (c.status == IsIssued ==> c.certPath.Some? && c.keyPath.Some?)
  }

  ghost predicate SoundTable(t: Table) { forall d :: d in t ==> Sound(d, t[d]) }

  /** What every write to the table respects. */
  ghost predicate Respects(t: Table, t': Table, d: string) {
    SoundTable(t') && Kept(t, t', d) && OthersSame(t, t', d)
  }

  lemma RespectsTrans(t: Table, t1: Table, t2: Table, d: string)
    requires Respects(t, t1, d) && Respects(t1, t2, d)
    ensures Respects(t, t2, d)
  {
  }

  /** The merging upsert never erases a path or a date, whatever row is written. */
  lemma UpsertKeeps(t: Table, d: string, c: Cert)
    requires SoundTable(t) && Sound(d, c)
    ensures var t' := Upsert(t, d, c);
      Respects(t, t', d) && AttemptsOf(t', d) == c.attempts
  {
    var t' := Upsert(t, d, c);
    assert Sound(d, t'[d]);
  }

  lemma FailedKeeps(t: Table, d: string, prev: Cert, text: string, e: Env)
    requires SoundTable(t) && Sound(d, prev) && AttemptsOf(t, d) == prev.attempts
    ensures var t' := Failed(t, d, prev, text, e); Respects(t, t', d) && AttemptsOf(t', d) == prev.attempts
  {
    UpsertKeeps(t, d, prev.(status := HasFailed, lastError := text));
  }

  lemma SavedKeeps(t: Table, d: string, prev: Cert, expiry: Option<int>, e: Env)
    requires SoundTable(t) && Sound(d, prev) && AttemptsOf(t, d) == prev.attempts
    ensures var (t', ok) := SaveIssued(t, d, prev, expiry, e);
      && Respects(t, t', d) && AttemptsOf(t', d) == prev.attempts
      && (ok ==> d in t' && t'[d].status == IsIssued)
  {
    UpsertKeeps(t, d, prev.(status := IsIssued, lastError := "",
                            certPath := Some(Paths.CertPath(d)), keyPath := Some(Paths.KeyPath(d)),
                            issuedAt := Some(e.nowSec), expiresAt := Coalesce(expiry, prev.expiresAt)));
  }

  lemma NothingRespects(t: Table, d: string)
    requires SoundTable(t)
    ensures Respects(t, t, d)
  {
  }

  lemma AttemptKeeps(t: Table, d: string, prev: Cert, e: Env)
    requires SoundTable(t) && Sound(d, prev) && AttemptsOf(t, d) == prev.attempts
    ensures var r := Attempted(t, d, prev, e);
      && Respects(t, r.table, d) && AttemptsOf(r.table, d) == prev.attempts
      && r.obtains <= 2 && (r.obtains == 2 ==> e.first.KidError?)
      && (r.ok ==> d in r.table && r.table[d].status == IsIssued)
  {
    hide Failed, SaveIssued, Respects, SoundTable, ErrorText;
    NothingRespects(t, d);
    var got := ObtainWithHeal(e).0;
    var text := if e.forceDns then "DNS-01 (Cloudflare): " + ErrorText(got) else ErrorText(got) + e.hint;
    FailedKeeps(t, d, prev, text, e);
    FailedKeeps(t, d, prev, NO_TOKEN, e);
    FailedKeeps(t, d, prev, "DNS-01 setup failed: " + e.setupError, e);
    if got.Issued? { SavedKeeps(t, d, prev, got.expiry, e); }
  }

  /** One issuance: rows keep what they have, other rows are untouched, one attempt is counted. */
  lemma IssuanceKeeps(t: Table, d: string, e: Env)
    requires SoundTable(t)
    ensures var r := Issuance(t, d, e);
      && Respects(t, r.table, d)
      && AttemptsOf(r.table, d) == AttemptsOf(t, d) + (if Started(e) then 1 else 0)
      && r.obtains <= 2
      && (r.obtains == 2 ==> e.first.KidError?)
      && (r.ok ==> d in r.table && r.table[d].status == IsIssued)
  {
    hide Upsert, Attempted;
    if Started(e) {
      var prev := Renewing(t, d);
      RenewingCounts(t, d);
      UpsertKeeps(t, d, prev);
      var t1 := Upsert(t, d, prev);
      AttemptKeeps(t1, d, prev, e);
      RespectsTrans(t, t1, Attempted(t1, d, prev, e).table, d);
    }
  }

  lemma RenewingCounts(t: Table, d: string)
    requires SoundTable(t)
    ensures Sound(d, Renewing(t, d)) && Renewing(t, d).attempts == AttemptsOf(t, d) + 1
  {
  }

  /** Whether an issuance obtains a certificate: at once, or after the one retry. */
  predicate Obtains(e: Env) {
    && e.clientOk && e.firstWriteOk && e.setupOk && (e.forceDns ==> e.haveToken)
    && (e.first.Issued? || (e.first.KidError? && e.rebuildOk && e.rearmOk && e.second.Issued?))
  }

  /** The row a successful issuance writes over `was`. */
  predicate IssuedRow(c: Cert, was: Cert, d: string, e: Env) {
    var leaf := if e.first.Issued? then e.first.expiry else if e.second.Issued? then e.second.expiry else None;
    && c.status == IsIssued && c.lastError == "" && c.attempts == was.attempts + 1
    && c.issuer == (if was.issuer == "" then "letsencrypt" else was.issuer)
    && c.certPath == Some("/etc/auracp/ssl/" + d + ".crt") && c.keyPath == Some("/etc/auracp/ssl/" + d + ".key")
    && c.issuedAt == Some(e.nowSec) && c.expiresAt == (if leaf.Some? then leaf else was.expiresAt)
  }

  /** The row a failed issuance leaves: everything `was` had, marked failed if that much could be written. */
  predicate UnissuedRow(c: Cert, was: Cert, e: Env) {
    && c == was.(issuer := if was.issuer == "" then "letsencrypt" else was.issuer, attempts := was.attempts + 1,
                 status := c.status, lastError := c.lastError)
    && (c.status == HasFailed <==>
          e.lastWriteOk && !Obtains(e) && (e.setupOk || e.forceDns))
    && (c.status != HasFailed ==> c.status == IsRenewing && c.lastError == was.lastError)
  }

  /**
   * Every way an issuance ends: how often a certificate was asked for, when it succeeds,
   * and the row it leaves. After a key-identifier error, a rebuilt client and a re-armed
   * challenge, the second answer decides.
   */
  lemma IssuanceEnds(t: Table, d: string, e: Env)
    ensures var r, was := Issuance(t, d, e), if d in t then t[d] else Cert("", None, None, None, None, NoStatus, "", 0);
      && (!(e.clientOk && e.firstWriteOk) ==> r == Result(t, false, 0))
      && (e.clientOk && e.firstWriteOk ==>
          && r.obtains == (if !e.setupOk || (e.forceDns && !e.haveToken) then 0
                           else if e.first.KidError? && e.rebuildOk && e.rearmOk then 2 else 1)
          && (r.ok <==> Obtains(e) && e.mkdirOk && e.certWriteOk && e.keyWriteOk && e.lastWriteOk)
          && d in r.table
          && (if r.ok then IssuedRow(r.table[d], was, d, e) else UnissuedRow(r.table[d], was, e)))
  {
    hide Attempted, Renewing, Upsert, Obtains, IssuedRow, UnissuedRow;
    if Started(e) {
      MarkedRow(t, d);
      AttemptEnds(Upsert(t, d, Renewing(t, d)), d, Renewing(t, d), if d in t then t[d] else NO_CERT, e);
    }
  }

  /** Writing a row that has everything the old one has. */
  lemma Rewritten(t: Table, d: string, c: Cert)
    requires d in t ==> KeptRow(t[d], c)
    ensures Upsert(t, d, c) == t[d := c]
  {
  }

  predicate Marked(prev: Cert, was: Cert) {
    prev == was.(issuer := if was.issuer == "" then "letsencrypt" else was.issuer,
                 attempts := was.attempts + 1, status := IsRenewing)
  }

  lemma MarkedRow(t: Table, d: string)
    ensures Upsert(t, d, Renewing(t, d)) == t[d := Renewing(t, d)]
    ensures Marked(Renewing(t, d), if d in t then t[d] else NO_CERT)
  {
    Rewritten(t, d, Renewing(t, d));
  }

  lemma FailedEnds(t: Table, d: string, prev: Cert, text: string, e: Env)
    requires d in t && t[d] == prev
    ensures Failed(t, d, prev, text, e) == if e.lastWriteOk then t[d := prev.(status := HasFailed, lastError := text)] else t
  {
    Rewritten(t, d, prev.(status := HasFailed, lastError := text));
  }

  lemma SavedEnds(t: Table, d: string, prev: Cert, was: Cert, e: Env, leaf: Option<int>)
    requires d in t && t[d] == prev && Marked(prev, was)
    requires leaf == if e.first.Issued? then e.first.expiry else if e.second.Issued? then e.second.expiry else None
    ensures var (t', ok) := SaveIssued(t, d, prev, leaf, e);
      && (ok <==> e.mkdirOk && e.certWriteOk && e.keyWriteOk && e.lastWriteOk)
      && (if ok then d in t' && IssuedRow(t'[d], was, d, e) else t' == t)
  {
    var c := prev.(status := IsIssued, lastError := "", certPath := Some(Paths.CertPath(d)), keyPath := Some(Paths.KeyPath(d)),
                   issuedAt := Some(e.nowSec), expiresAt := Coalesce(leaf, prev.expiresAt));
    Rewritten(t, d, c);
  }

  lemma AttemptEnds(t: Table, d: string, prev: Cert, was: Cert, e: Env)
    requires Started(e) && d in t && t[d] == prev && Marked(prev, was)
    ensures var r := Attempted(t, d, prev, e);
      && r.obtains == (if !e.setupOk || (e.forceDns && !e.haveToken) then 0
                       else if e.first.KidError? && e.rebuildOk && e.rearmOk then 2 else 1)
      && (r.ok <==> Obtains(e) && e.mkdirOk && e.certWriteOk && e.keyWriteOk && e.lastWriteOk)
      && d in r.table
      && (if r.ok then IssuedRow(r.table[d], was, d, e) else UnissuedRow(r.table[d], was, e))
  {
    hide Failed, SaveIssued, ErrorText, IssuedRow;
    var got := ObtainWithHeal(e).0;
    FailedEnds(t, d, prev, if e.forceDns then "DNS-01 (Cloudflare): " + ErrorText(got) else ErrorText(got) + e.hint, e);
    FailedEnds(t, d, prev, NO_TOKEN, e);
    FailedEnds(t, d, prev, "DNS-01 setup failed: " + e.setupError, e);
    if got.Issued? { SavedEnds(t, d, prev, was, e, got.expiry); }
  }

  lemma StepKeeps(t: Table, c: Call, d: string)
    requires SoundTable(t) && c != Remove(d)
    ensures SoundTable(Step(t, c)) && Kept(t, Step(t, c), d)
    ensures AttemptsOf(Step(t, c), d) == AttemptsOf(t, d) + (if Starts(t, c, d) then 1 else 0)
  {
    hide Issuance;
    match c
    case Request(d', e) => IssuanceKeeps(t, d', e);
    case Ensure(d', nowNs, e) => IssuanceKeeps(t, d', e);
    case Remove(d') =>
  }

  /**
   * Over any run of calls with any outcomes in which the row is not deleted: paths and dates
   * once set stay set, an issued row has both paths, and the attempts counter grows by one
   * per started issuance.
   */
  lemma {:induction false} RunKeeps(t: Table, calls: seq<Call>, d: string)
    requires SoundTable(t) && !Removes(calls, d)
    ensures SoundTable(Run(t, calls)) && Kept(t, Run(t, calls), d)
    ensures AttemptsOf(Run(t, calls), d) == AttemptsOf(t, d) + StartsIn(t, calls, d)
    decreases |calls|
  {
    hide Step, Starts, Sound;
    if calls != [] {
      assert calls[0] != Remove(d);
      StepKeeps(t, calls[0], d);
      assert !Removes(calls[1..], d) by {
        forall i | 0 <= i < |calls[1..]| ensures calls[1..][i] != Remove(d) { assert calls[i + 1] == calls[1..][i]; }
      }
      RunKeeps(Step(t, calls[0]), calls[1..], d);
    }
  }

  // ----- the renewal window -----

  /** A due row is never fresh, and stays due until a new expiry is stored. */
  lemma DueIsNotFresh(c: Cert, nowNs: int, laterNs: int)
    requires Due(c, nowNs) && nowNs <= laterNs
    ensures Due(c, laterNs) && !Fresh(c, laterNs)
  {
    assert nowNs / SECOND <= laterNs / SECOND;
    assert laterNs / SECOND * SECOND <= laterNs;
  }

  /**
   * A tick picks a dated row exactly when at most thirty days less one second are left, and
   * an issued one is fresh exactly when more than thirty days are: in the second between
   * the two it is neither.
   */
  lemma WindowIsExact(c: Cert, nowNs: int)
    requires c.expiresAt.Some?
    ensures var left := c.expiresAt.value * SECOND - nowNs;
      && (Due(c, nowNs) <==> left <= (WINDOW - 1) * SECOND)
      && (Fresh(c, nowNs) <==> c.status == IsIssued && left > WINDOW * SECOND)
      && (Due(c, nowNs) ==> !Fresh(c, nowNs))
  {
    var s := nowNs / SECOND;
    assert s * SECOND <= nowNs < (s + 1) * SECOND;
  }

  /**
   * `EnsureCert` leaves a row alone exactly when it is issued with more than thirty days
   * left, and otherwise is one issuance; when it succeeds the row is issued with both paths.
   */
  lemma EnsureIsExact(t: Table, d: string, nowNs: int, e: Env)
    requires SoundTable(t)
    ensures var r := Ensured(t, d, nowNs, e);
      && r == (if d in t && t[d].status == IsIssued && t[d].expiresAt.Some?
                   && t[d].expiresAt.value * SECOND - nowNs > 30 * 24 * 3600 * SECOND
               then Result(t, true, 0) else Issuance(t, d, e))
      && (r.ok ==>
            && d in r.table && r.table[d].status == IsIssued
            && r.table[d].certPath == Some("/etc/auracp/ssl/" + d + ".crt")
            && r.table[d].keyPath == Some("/etc/auracp/ssl/" + d + ".key"))
  {
    hide Issuance;
    if d in t { assert Sound(d, t[d]); }
    IssuanceEnds(t, d, e);
  }

  /** So every tick inside the window issues for the row, exactly once, and no other tick touches it. */
  lemma WindowIsCovered(t: Table, t': Table, d: string, nowNs: int, env: string -> Env)
    requires d in t && t[d].expiresAt.Some? && Ticked(t, t', nowNs, env)
    ensures Lookup(t', d) ==
      if t[d].expiresAt.value * SECOND - nowNs <= (WINDOW - 1) * SECOND
      then Lookup(Issuance(t, d, env(d)).table, d) else Some(t[d])
    ensures SoundTable(t) && t[d].expiresAt.value * SECOND - nowNs <= (WINDOW - 1) * SECOND ==>
      AttemptsOf(t', d) == AttemptsOf(t, d) + (if Started(env(d)) then 1 else 0)
  {
    hide Issuance, Due;
    WindowIsExact(t[d], nowNs);
    assert Lookup(t', d) ==
      if Due(t[d], nowNs) then Lookup(Issuance(t, d, env(d)).table, d) else Lookup(t, d);
    if SoundTable(t) && Due(t[d], nowNs) {
      IssuanceKeeps(t, d, env(d));
      SameRowSameAttempts(t', Issuance(t, d, env(d)).table, d);
    }
  }

  lemma SameRowSameAttempts(t: Table, u: Table, d: string)
    requires Lookup(t, d) == Lookup(u, d)
    ensures AttemptsOf(t, d) == AttemptsOf(u, d)
  {
  }

  /** A tick picks a row at some time exactly when the row carries an expiry date. */
  lemma PickedMeansDated(c: Cert)
    ensures (exists nowNs :: Due(c, nowNs)) <==> c.expiresAt.Some?
  {
    if c.expiresAt.Some? { assert Due(c, c.expiresAt.value * SECOND); }
  }

  /** An undated row gets a date exactly when an issuance succeeds with a readable leaf. */
  lemma DatedByIssuanceOnly(t: Table, d: string, e: Env)
    requires d in t ==> t[d].expiresAt.None?
    ensures var r := Issuance(t, d, e);
      (d in r.table && r.table[d].expiresAt.Some?)
      <==> r.ok && ObtainWithHeal(e).0.Issued? && ObtainWithHeal(e).0.expiry.Some?
  {
  }

  /**
   * A domain whose first issuance fails, or whose earlier ones all did, has a row without
   * an expiry date: no renewal tick, at any time, retries it.
   */
  lemma FailedFirstIssuanceIsNeverRetried(t: Table, d: string, e: Env)
    requires d in t ==> t[d].expiresAt.None?
    requires !Issuance(t, d, e).ok
    ensures d in Issuance(t, d, e).table ==> forall nowNs :: !Due(Issuance(t, d, e).table[d], nowNs)
  {
    DatedByIssuanceOnly(t, d, e);
  }
}
