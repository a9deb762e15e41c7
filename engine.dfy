/**
 * The verification engine: it reads a provider's credentials from the
 * store, asks the registry about the license, classifies the insurance and
 * bond expiry dates against today, and appends what it found to the
 * verification log.
 *
 * The database is an in-memory `Store` whose tables are sequences of rows.
 * SQL promises no row order without `ORDER BY`, so each sequence stands for
 * the order in which the engine's queries return the rows; a
 * `SELECT ... WHERE provider_id = ?` followed by `fetchone()` is then the
 * first row of the provider in that order. Each operation is a method of the store,
 * specified by a pure step function on the store's contents, and the lemmas
 * state what the step functions promise.
 */
module Engine {
  import opened Common
  import opened Text
  import opened Canonical
  import Virginia
  import Dates

  const NoLicenseMessage := "No license on file"
  const NoInsuranceMessage := "No insurance on file"
  const NoBondMessage := "No bond on file"

  /** The `credential_type` column of a log entry. */
  const LicenseKind := "license"
  const InsuranceKind := "insurance"
  const BondKind := "bond"

  /** The `result` column of a log entry. */
  const VerifiedResult := "verified"
  const FailedResult := "failed"
  const ExpiredResult := "expired"
  const ValidResult := "valid"

  /** A row of `providers`, as `verify_all` reads it. */
  datatype Provider = Provider(id: int, name: string)

  /** A row of `licenses`. */
  datatype License = License(
    id: int, providerId: int, licenseNumber: string, state: Option<string>,
    licenseClass: Option<string>, status: Option<string>, expirationDate: Option<string>,
    holderName: Option<string>, initialDate: Option<string>, firmType: Option<string>,
    specialties: Option<string>, address: Option<string>, lastVerifiedAt: Option<string>,
    rawResponse: Option<string>)

  /** A row of `insurance_records` or `bond_records`: the columns the checks read or could write. */
  datatype Coverage = Coverage(id: int, providerId: int, expirationDate: Option<string>,
                               proofUploaded: bool, verified: bool)

  /**
   * When a log entry was checked: the timestamp the engine passes, or the
   * column default `datetime('now')` of the database, which the insurance
   * and bond checks rely on.
   */
  datatype Stamp = At(timestamp: string) | DatabaseDefault

  /** A row of `verification_log`. */
  datatype LogEntry = LogEntry(providerId: int, credentialType: string, result: string,
                               details: string, checkedAt: Stamp)

  /** The contents of the store. */
  datatype Tables = Tables(providers: seq<Provider>, licenses: seq<License>,
                           insurance: seq<Coverage>, bonds: seq<Coverage>, log: seq<LogEntry>)

  /**
   * What one check returns: the missing-row failure, the lookup result of a
   * license check, or the classification of an insurance or bond check.
   */
  datatype Report =
    | Missing(error: string)
    | Looked(result: LookupResult)
    | Classified(status: string, expirationDate: Option<string>)

  /** What `verify_provider` returns. */
  datatype ProviderReport = ProviderReport(license: Report, insurance: Report, bond: Report)

  /** The three checks of `verify_provider`, in the order it runs them. */
  datatype Stage = LicenseStage | InsuranceStage | BondStage

  /**
   * An exception escaping one provider's verification, with its text, and
   * the check it escapes from. Which exceptions occur (database errors, an
   * unexpected page) is not modelled, so faults are an input of the batch.
   */
  datatype Fault = Fault(stage: Stage, message: string)

  /** What a batch entry carries: the provider's results, or the text of the exception. */
  datatype BatchOutcome = Results(report: ProviderReport) | Raised(error: string)

  /** One entry of the list `verify_all` returns. */
  datatype BatchEntry = BatchEntry(providerId: int, name: string, outcome: BatchOutcome)

  /** The contents of the store after an operation, and what the operation returned. */
  datatype Checked = Checked(after: Tables, report: Report)

  // ---------------------------------------------------------------- reading rows

  /** `fetchone()` on `WHERE provider_id = ?`: the position of the first row owned by the provider. */
  function FirstOwned<T>(rows: seq<T>, owner: T -> int, providerId: int): (r: Option<nat>)
    ensures r.Some? ==> r.value < |rows| && owner(rows[r.value]) == providerId
    ensures r.Some? ==> forall j :: 0 <= j < r.value ==> owner(rows[j]) != providerId
    ensures r.None? ==> forall j :: 0 <= j < |rows| ==> owner(rows[j]) != providerId
  {
    if rows == [] then None
    else if owner(rows[0]) == providerId then Some(0)
    else match FirstOwned(rows[1..], owner, providerId)
      case None => None
      case Some(j) => Some(j + 1)
  }

  function LicenseOwner(l: License): int { l.providerId }

  function CoverageOwner(c: Coverage): int { c.providerId }

  // ---------------------------------------------------------------- the license check

  /** The row as `verify_license` rewrites it after a successful lookup. */
  function Refreshed(l: License, r: LookupResult, now: string): (n: License)
    requires r.Found?
    ensures n.id == l.id && n.providerId == l.providerId && n.licenseNumber == l.licenseNumber
    ensures n.state == l.state && n.initialDate == l.initialDate
    ensures n.status == Some(r.status) && n.licenseClass == r.licenseClass
    ensures n.expirationDate == r.expirationDate && n.holderName == r.holderName
    ensures n.firmType == r.firmType && n.specialties == r.specialties && n.address == r.address
    ensures n.lastVerifiedAt == Some(now) && n.rawResponse == Some(r.rawHtml)
  {
    l.(status := Some(r.status), licenseClass := r.licenseClass, expirationDate := r.expirationDate,
       holderName := r.holderName, firmType := r.firmType, specialties := r.specialties,
       address := r.address, lastVerifiedAt := Some(now), rawResponse := Some(r.rawHtml))
  }

  /** `UPDATE licenses SET ... WHERE id = ?`: every row with that id is refreshed. */
  function RefreshById(ls: seq<License>, id: int, r: LookupResult, now: string): (ns: seq<License>)
    requires r.Found?
    ensures |ns| == |ls|
    ensures forall j :: 0 <= j < |ls| ==> ns[j] == if ls[j].id == id then Refreshed(ls[j], r, now) else ls[j]
  {
    seq(|ls|, j requires 0 <= j < |ls| => if ls[j].id == id then Refreshed(ls[j], r, now) else ls[j])
  }

  /**
   * The `details` of a license log entry, `str(status or error or "")`: a
   * success carries a status and no error, a failure an error and no status.
   */
  function LicenseDetail(r: LookupResult): (d: string)
    ensures r.Found? && r.status != "" ==> d == r.status
    ensures r.Failed? ==> d == r.error
    ensures r.Found? && r.status == "" ==> d == ""
  {
    match r
    case Found(_, _, _, status, _, _, _, _, _, _, _) => status
    case Failed(_, error) => error
  }

  /** The log entry of a license check: verified iff the lookup succeeded. */
  function LicenseEntry(providerId: int, r: LookupResult, now: string): (e: LogEntry)
    ensures e.providerId == providerId && e.credentialType == LicenseKind
    ensures e.result == VerifiedResult <==> r.Found?
    ensures e.result == FailedResult <==> r.Failed?
    ensures e.details == LicenseDetail(r) && e.checkedAt == At(now)
  {
    LogEntry(providerId, LicenseKind, if r.Found? then VerifiedResult else FailedResult, LicenseDetail(r), At(now))
  }

  /** What `verify_license` does to the store and returns. */
  function LicenseStep(t: Tables, providerId: int, reg: Virginia.Registry, now: string): (c: Checked)
    ensures c.after.providers == t.providers && c.after.insurance == t.insurance && c.after.bonds == t.bonds
    ensures FirstOwned(t.licenses, LicenseOwner, providerId).None? ==>
      c == Checked(t, Missing(NoLicenseMessage))
    ensures FirstOwned(t.licenses, LicenseOwner, providerId).Some? ==>
      var lic := t.licenses[FirstOwned(t.licenses, LicenseOwner, providerId).value];
      var result := Virginia.Lookup(reg, lic.licenseNumber);
      && c.report == Looked(result)
      && c.after.log == t.log + [LicenseEntry(providerId, result, now)]
      && (result.Failed? ==> c.after.licenses == t.licenses)
      && (result.Found? ==> c.after.licenses == RefreshById(t.licenses, lic.id, result, now))
  {
    match FirstOwned(t.licenses, LicenseOwner, providerId)
    case None => Checked(t, Missing(NoLicenseMessage))
    case Some(i) =>
      var lic := t.licenses[i];
      var result := Virginia.Lookup(reg, lic.licenseNumber);
      var licenses := if result.Found? then RefreshById(t.licenses, lic.id, result, now) else t.licenses;
      Checked(t.(licenses := licenses, log := t.log + [LicenseEntry(providerId, result, now)]), Looked(result))
  }

  // ---------------------------------------------------------------- the expiry checks

  /**
   * `expiration_date and expiration_date < now`: a missing or empty date
   * never counts as expired; otherwise the dates are compared as strings.
   */
  predicate Expired(date: Option<string>, today: string)
    ensures Expired(date, today) ==> date.Some? && date.value != "" && date.value != today
  {
    date.Some? && date.value != "" && LexLess(date.value, today)
  }

  /** A missing or empty expiration date is never expired. */
  lemma NoDateIsValid(today: string)
    ensures !Expired(None, today) && !Expired(Some(""), today)
  {
  }

  /**
   * On `YYYY-MM-DD` dates the string comparison is the calendar one: a
   * record is expired exactly when its date lies before today.
   */
  lemma ExpiredMeansBeforeToday(date: string, today: string)
    requires Dates.IsIsoDate(date) && Dates.IsIsoDate(today)
    ensures Expired(Some(date), today) <==> Dates.Before(date, today)
  {
    Dates.IsoDateOrder(date, today);
  }

  /** A record that expired on 2020-01-01 is expired on any later day. */
  lemma ExpiredExample(today: string)
    requires Dates.IsIsoDate(today) && Dates.Before("2020-01-01", today)
    ensures Expired(Some("2020-01-01"), today)
  {
    ExpiredMeansBeforeToday("2020-01-01", today);
  }

  /** The `details` of an expiry log entry, `f"Expires: {expiration_date}"`. */
  function ExpiryDetail(date: Option<string>): (d: string)
    ensures date.Some? ==> d == "Expires: " + date.value
    ensures date.None? ==> d == "Expires: None"
  {
    "Expires: " + date.GetOr("None")
  }

  /**
   * What `check_insurance_expiry` (on the insurance table) and
   * `check_bond_expiry` (on the bond table) do: with no row, a failure and
   * nothing logged; otherwise one log entry and the classification.
   */
  function ExpiryCheck(rows: seq<Coverage>, log: seq<LogEntry>, providerId: int, kind: string,
                       missing: string, today: string): (r: (seq<LogEntry>, Report))
    ensures FirstOwned(rows, CoverageOwner, providerId).None? ==> r == (log, Missing(missing))
    ensures FirstOwned(rows, CoverageOwner, providerId).Some? ==>
      var rec := rows[FirstOwned(rows, CoverageOwner, providerId).value];
      var verdict := if Expired(rec.expirationDate, today) then ExpiredResult else ValidResult;
      && r.0 == log + [LogEntry(providerId, kind, verdict, ExpiryDetail(rec.expirationDate), DatabaseDefault)]
      && r.1 == Classified(verdict, rec.expirationDate)
  {
    match FirstOwned(rows, CoverageOwner, providerId)
    case None => (log, Missing(missing))
    case Some(i) =>
      var rec := rows[i];
      var verdict := if Expired(rec.expirationDate, today) then ExpiredResult else ValidResult;
      (log + [LogEntry(providerId, kind, verdict, ExpiryDetail(rec.expirationDate), DatabaseDefault)],
       Classified(verdict, rec.expirationDate))
  }

  /** `check_insurance_expiry`: only the log changes. */
  function InsuranceStep(t: Tables, providerId: int, today: string): (c: Checked)
    ensures c.after == t.(log := c.after.log)
    ensures (c.after.log, c.report) == ExpiryCheck(t.insurance, t.log, providerId, InsuranceKind, NoInsuranceMessage, today)
  {
    var (log, report) := ExpiryCheck(t.insurance, t.log, providerId, InsuranceKind, NoInsuranceMessage, today);
    Checked(t.(log := log), report)
  }

  /** `check_bond_expiry`: only the log changes. */
  function BondStep(t: Tables, providerId: int, today: string): (c: Checked)
    ensures c.after == t.(log := c.after.log)
    ensures (c.after.log, c.report) == ExpiryCheck(t.bonds, t.log, providerId, BondKind, NoBondMessage, today)
  {
    var (log, report) := ExpiryCheck(t.bonds, t.log, providerId, BondKind, NoBondMessage, today);
    Checked(t.(log := log), report)
  }

  // ---------------------------------------------------------------- a provider and the batch

  /** The store and the batch entry after `verify_provider` runs for one provider inside `verify_all`. */
  datatype Run = Run(after: Tables, entry: BatchEntry)

  /**
   * One provider of `verify_all`: the three checks in order; a fault in a
   * check discards that check's uncommitted changes, skips the later checks
   * and is recorded as the provider's error.
   */
  function ProviderRun(t: Tables, p: Provider, reg: Virginia.Registry, now: string, today: string,
                       fault: int -> Option<Fault>): (r: Run)
    ensures r.entry.providerId == p.id && r.entry.name == p.name
    ensures r.entry.outcome.Raised? <==> fault(p.id).Some?
    ensures fault(p.id).Some? ==> r.entry.outcome.error == fault(p.id).value.message
    ensures var l := LicenseStep(t, p.id, reg, now);
      var i := InsuranceStep(l.after, p.id, today);
      var b := BondStep(i.after, p.id, today);
      && (fault(p.id).None? ==>
            r.after == b.after && r.entry.outcome == Results(ProviderReport(l.report, i.report, b.report)))
      && (fault(p.id).Some? ==>
            r.after == match fault(p.id).value.stage
              case LicenseStage => t
              case InsuranceStage => l.after
              case BondStage => i.after)
  {
    var l := LicenseStep(t, p.id, reg, now);
    var i := InsuranceStep(l.after, p.id, today);
    var b := BondStep(i.after, p.id, today);
    match fault(p.id)
    case None => Run(b.after, BatchEntry(p.id, p.name, Results(ProviderReport(l.report, i.report, b.report))))
    case Some(f) =>
      var kept := match f.stage
        case LicenseStage => t
        case InsuranceStage => l.after
        case BondStage => i.after;
      Run(kept, BatchEntry(p.id, p.name, Raised(f.message)))
  }

  /** `verify_all` over the providers `ps`, one after another. */
  function Batch(t: Tables, ps: seq<Provider>, reg: Virginia.Registry, now: string, today: string,
                 fault: int -> Option<Fault>): (r: (Tables, seq<BatchEntry>))
    ensures |r.1| == |ps|
  {
    if ps == [] then (t, [])
    else
      var (mid, entries) := Batch(t, ps[..|ps| - 1], reg, now, today, fault);
      var run := ProviderRun(mid, ps[|ps| - 1], reg, now, today, fault);
      (run.after, entries + [run.entry])
  }

  // ---------------------------------------------------------------- what the steps keep

  /** The columns `verify_license` never writes. */
  predicate SameKeys(a: License, b: License) {
    a.id == b.id && a.providerId == b.providerId && a.licenseNumber == b.licenseNumber
    && a.state == b.state && a.initialDate == b.initialDate
  }

  /**
   * From `a` to `b`: the providers, insurance and bond tables are untouched,
   * the license rows keep their number, order and key columns, and the log
   * only grows at its end.
   */
  predicate KeysKept(a: Tables, b: Tables) {
    && b.providers == a.providers && b.insurance == a.insurance && b.bonds == a.bonds
    && |b.licenses| == |a.licenses|
    && (forall j :: 0 <= j < |a.licenses| ==> SameKeys(a.licenses[j], b.licenses[j]))
    && a.log <= b.log
  }

  lemma KeysKeptTransitive(a: Tables, b: Tables, c: Tables)
    requires KeysKept(a, b) && KeysKept(b, c)
    ensures KeysKept(a, c)
  {
    forall j | 0 <= j < |a.licenses| ensures SameKeys(a.licenses[j], c.licenses[j]) {
      assert SameKeys(a.licenses[j], b.licenses[j]) && SameKeys(b.licenses[j], c.licenses[j]);
    }
  }

  /** A license check keeps every key column and appends at most one log entry. */
  lemma LicenseStepKeepsKeys(t: Tables, providerId: int, reg: Virginia.Registry, now: string)
    ensures KeysKept(t, LicenseStep(t, providerId, reg, now).after)
    ensures |LicenseStep(t, providerId, reg, now).after.log| <= |t.log| + 1
  {
  }

  /** The expiry checks touch nothing but the log, and append at most one entry to it. */
  lemma ExpiryStepsKeepKeys(t: Tables, providerId: int, today: string)
    ensures KeysKept(t, InsuranceStep(t, providerId, today).after)
    ensures KeysKept(t, BondStep(t, providerId, today).after)
    ensures |InsuranceStep(t, providerId, today).after.log| <= |t.log| + 1
    ensures |BondStep(t, providerId, today).after.log| <= |t.log| + 1
  {
  }

  /** One provider's run, whether or not a fault escapes it, keeps the keys. */
  lemma ProviderRunKeepsKeys(t: Tables, p: Provider, reg: Virginia.Registry, now: string, today: string,
                             fault: int -> Option<Fault>)
    ensures KeysKept(t, ProviderRun(t, p, reg, now, today, fault).after)
  {
    var l := LicenseStep(t, p.id, reg, now);
    var i := InsuranceStep(l.after, p.id, today);
    var b := BondStep(i.after, p.id, today);
    LicenseStepKeepsKeys(t, p.id, reg, now);
    ExpiryStepsKeepKeys(l.after, p.id, today);
    ExpiryStepsKeepKeys(i.after, p.id, today);
    KeysKeptTransitive(t, l.after, i.after);
    KeysKeptTransitive(t, i.after, b.after);
  }

  /**
   * A whole batch keeps the providers, insurance and bond tables, every
   * license row's key columns, and every log entry written before it.
   */
  lemma {:induction false} BatchKeepsKeys(t: Tables, ps: seq<Provider>, reg: Virginia.Registry, now: string,
                                         today: string, fault: int -> Option<Fault>)
    ensures KeysKept(t, Batch(t, ps, reg, now, today, fault).0)
  {
    if ps != [] {
      var init := ps[..|ps| - 1];
      var mid := Batch(t, init, reg, now, today, fault).0;
      BatchKeepsKeys(t, init, reg, now, today, fault);
      ProviderRunKeepsKeys(mid, ps[|ps| - 1], reg, now, today, fault);
      KeysKeptTransitive(t, mid, Batch(t, ps, reg, now, today, fault).0);
    }
  }

  /** No two license rows share an `id` (it is the table's primary key). */
  predicate UniqueLicenseIds(t: Tables) {
    forall i, j :: 0 <= i < j < |t.licenses| ==> t.licenses[i].id != t.licenses[j].id
  }

  /** Keeping the keys keeps the primary key unique. */
  lemma KeysKeptUnique(a: Tables, b: Tables)
    requires KeysKept(a, b) && UniqueLicenseIds(a)
    ensures UniqueLicenseIds(b)
  {
    forall i, j | 0 <= i < j < |b.licenses| ensures b.licenses[i].id != b.licenses[j].id {
      assert SameKeys(a.licenses[i], b.licenses[i]) && SameKeys(a.licenses[j], b.licenses[j]);
    }
  }

  /**
   * With a unique primary key, a license check rewrites exactly the
   * provider's first license row, and only when the lookup succeeds.
   */
  lemma OnlyTheFirstRowChanges(t: Tables, providerId: int, reg: Virginia.Registry, now: string)
    requires UniqueLicenseIds(t)
    requires FirstOwned(t.licenses, LicenseOwner, providerId).Some?
    ensures var i := FirstOwned(t.licenses, LicenseOwner, providerId).value;
      var after := LicenseStep(t, providerId, reg, now).after;
      var result := Virginia.Lookup(reg, t.licenses[i].licenseNumber);
      && (forall j :: 0 <= j < |t.licenses| && j != i ==> after.licenses[j] == t.licenses[j])
      && after.licenses[i] == if result.Found? then Refreshed(t.licenses[i], result, now) else t.licenses[i]
  {
  }

  /** Refreshing a row twice with the same lookup result and time is refreshing it once. */
  lemma RefreshIdempotent(l: License, r: LookupResult, now: string)
    requires r.Found?
    ensures Refreshed(Refreshed(l, r, now), r, now) == Refreshed(l, r, now)
  {
  }

  /**
   * The batch has one entry per provider, in provider order; each entry
   * carries an error exactly when a fault escaped that provider's own run,
   * whatever happened to the providers before it.
   */
  lemma {:induction false} BatchOnePerProvider(t: Tables, ps: seq<Provider>, reg: Virginia.Registry, now: string,
                                              today: string, fault: int -> Option<Fault>)
    ensures var es := Batch(t, ps, reg, now, today, fault).1;
      forall k :: 0 <= k < |ps| ==>
        && es[k].providerId == ps[k].id && es[k].name == ps[k].name
        && (es[k].outcome.Raised? <==> fault(ps[k].id).Some?)
  {
    if ps != [] {
      var init := ps[..|ps| - 1];
      BatchOnePerProvider(t, init, reg, now, today, fault);
      var es := Batch(t, ps, reg, now, today, fault).1;
      assert es[..|ps| - 1] == Batch(t, init, reg, now, today, fault).1;
      forall k | 0 <= k < |ps| - 1 ensures es[k] == Batch(t, init, reg, now, today, fault).1[k] && ps[k] == init[k] {
      }
    }
  }

  /**
   * The entry of the `k`-th provider is what that provider's own run gives
   * on the store the earlier providers left behind.
   */
  lemma {:induction false} BatchEntryIsRun(t: Tables, ps: seq<Provider>, reg: Virginia.Registry, now: string,
                                          today: string, fault: int -> Option<Fault>, k: nat)
    requires k < |ps|
    ensures Batch(t, ps, reg, now, today, fault).1[k]
         == ProviderRun(Batch(t, ps[..k], reg, now, today, fault).0, ps[k], reg, now, today, fault).entry
  {
    var init := ps[..|ps| - 1];
    if k < |ps| - 1 {
      BatchEntryIsRun(t, init, reg, now, today, fault, k);
      assert init[..k] == ps[..k] && init[k] == ps[k];
    } else {
      assert init == ps[..k];
    }
  }

  // ---------------------------------------------------------------- the store

  class Store {
    var providers: seq<Provider>
    var licenses: seq<License>
    var insurance: seq<Coverage>
    var bonds: seq<Coverage>
    var log: seq<LogEntry>

    function Contents(): Tables
      reads this
    {
      Tables(providers, licenses, insurance, bonds, log)
    }

    constructor(t: Tables)
      ensures Contents() == t
    {
      providers := t.providers;
      licenses := t.licenses;
      insurance := t.insurance;
      bonds := t.bonds;
      log := t.log;
    }

    /** `verify_license`. */
    method VerifyLicense(providerId: int, reg: Virginia.Registry, now: string) returns (report: Report)
      modifies this
      ensures Checked(Contents(), report) == LicenseStep(old(Contents()), providerId, reg, now)
    {
      match FirstOwned(licenses, LicenseOwner, providerId) {
        case None =>
          report := Missing(NoLicenseMessage);
        case Some(i) =>
          var lic := licenses[i];
          var result := Virginia.Lookup(reg, lic.licenseNumber);
          if result.Found? {
            licenses := RefreshById(licenses, lic.id, result, now);
          }
          log := log + [LicenseEntry(providerId, result, now)];
          report := Looked(result);
      }
    }

    /** `check_insurance_expiry`. */
    method CheckInsuranceExpiry(providerId: int, today: string) returns (report: Report)
      modifies this
      ensures Checked(Contents(), report) == InsuranceStep(old(Contents()), providerId, today)
    {
      var (entries, r) := ExpiryCheck(insurance, log, providerId, InsuranceKind, NoInsuranceMessage, today);
      log := entries;
      report := r;
    }

    /** `check_bond_expiry`. */
    method CheckBondExpiry(providerId: int, today: string) returns (report: Report)
      modifies this
      ensures Checked(Contents(), report) == BondStep(old(Contents()), providerId, today)
    {
      var (entries, r) := ExpiryCheck(bonds, log, providerId, BondKind, NoBondMessage, today);
      log := entries;
      report := r;
    }

    /** `verify_provider`: the license, insurance and bond checks, in that order. */
    method VerifyProvider(providerId: int, reg: Virginia.Registry, now: string, today: string)
      returns (report: ProviderReport)
      modifies this
      ensures var l := LicenseStep(old(Contents()), providerId, reg, now);
        var i := InsuranceStep(l.after, providerId, today);
        var b := BondStep(i.after, providerId, today);
        Contents() == b.after && report == ProviderReport(l.report, i.report, b.report)
    {
      var l := VerifyLicense(providerId, reg, now);
      var i := CheckInsuranceExpiry(providerId, today);
      var b := CheckBondExpiry(providerId, today);
      report := ProviderReport(l, i, b);
    }

    /**
     * The body of the `try` in `verify_all` for one provider: its checks, up
     * to the one a fault escapes from, whose changes are not committed.
     */
    method RunProvider(p: Provider, reg: Virginia.Registry, now: string, today: string,
                       fault: int -> Option<Fault>) returns (entry: BatchEntry)
      modifies this
      ensures Run(Contents(), entry) == ProviderRun(old(Contents()), p, reg, now, today, fault)
    {
      match fault(p.id) {
        case None =>
          var report := VerifyProvider(p.id, reg, now, today);
          entry := BatchEntry(p.id, p.name, Results(report));
        case Some(f) =>
          if f.stage != LicenseStage {
            var _ := VerifyLicense(p.id, reg, now);
          }
          if f.stage == BondStage {
            var _ := CheckInsuranceExpiry(p.id, today);
          }
          entry := BatchEntry(p.id, p.name, Raised(f.message));
      }
    }

    /**
     * `verify_all`: every provider, in table order; a fault is caught, its
     * check rolled back, and the batch goes on with the next provider.
     */
    method VerifyAll(reg: Virginia.Registry, now: string, today: string, fault: int -> Option<Fault>)
      returns (entries: seq<BatchEntry>)
      modifies this
      ensures (Contents(), entries) == Batch(old(Contents()), old(providers), reg, now, today, fault)
    {
      var ps := providers;
      entries := [];
      var i := 0;
      while i < |ps|
        invariant 0 <= i <= |ps|
        invariant (Contents(), entries) == Batch(old(Contents()), ps[..i], reg, now, today, fault)
      {
        var entry := RunProvider(ps[i], reg, now, today, fault);
        entries := entries + [entry];
        assert ps[..i + 1][..i] == ps[..i];
        i := i + 1;
      }
      assert ps[..i] == ps;
    }
  }
}
