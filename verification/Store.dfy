/**
 * The tables of the workbench. Rows of a submission are only ever appended, and each insert takes a
 * later time than the one before. A table answers for one submission with its rows in order, or with
 * the latest of them.
 */
module Store {
  import opened Wrappers
  import opened Appetite
  import RatingEngine
  import RatingTables

  datatype Row<+T> = Row(submission: string, at: nat, body: T)

  /** The rows of one submission, oldest first. */
  function Of<T>(rows: seq<Row<T>>, submission: string): seq<Row<T>> {
    if rows == [] then []
    else
      var last := rows[|rows| - 1];
      Of(rows[..|rows| - 1], submission) + if last.submission == submission then [last] else []
  }

  /** `ORDER BY at DESC LIMIT 1` over the rows of one submission. */
  function Latest<T>(rows: seq<Row<T>>, submission: string): Option<Row<T>> {
    if rows == [] then None
    else
      var last, best := rows[|rows| - 1], Latest(rows[..|rows| - 1], submission);
      if last.submission != submission then best
      else if best.Some? && best.value.at > last.at then best
      else Some(last)
  }

  /** Times increase strictly from row to row and stay before the clock. */
  predicate Ticking<T>(rows: seq<Row<T>>, clock: nat) {
    (forall i, j :: 0 <= i < j < |rows| ==> rows[i].at < rows[j].at)
    && forall i :: 0 <= i < |rows| ==> rows[i].at < clock
  }

  lemma OfAppend<T>(rows: seq<Row<T>>, row: Row<T>, submission: string)
    ensures Of(rows + [row], submission)
            == if row.submission == submission then Of(rows, submission) + [row] else Of(rows, submission)
  {
    assert (rows + [row])[..|rows|] == rows;
  }

  lemma {:induction false} LatestFound<T>(rows: seq<Row<T>>, submission: string)
    ensures Latest(rows, submission).None? <==> Of(rows, submission) == []
    ensures Latest(rows, submission).None? ==> forall i :: 0 <= i < |rows| ==> rows[i].submission != submission
    ensures Latest(rows, submission).Some? ==>
              var best := Latest(rows, submission).value;
              && best in rows && best.submission == submission
              && forall i :: 0 <= i < |rows| && rows[i].submission == submission ==> rows[i].at <= best.at
  {
    if rows != [] {
      var init, last := rows[..|rows| - 1], rows[|rows| - 1];
      LatestFound(init, submission);
      assert rows == init + [last];
      assert forall row :: row in init ==> row in rows;
      assert forall i :: 0 <= i < |init| ==> rows[i] == init[i];
    }
  }

  /** The row is of the submission, and no other row of it is later. */
  predicate IsLatest<T(==)>(rows: seq<Row<T>>, submission: string, row: Row<T>) {
    row in rows && row.submission == submission
    && forall other :: other in rows && other.submission == submission ==> other.at <= row.at
  }

  /** With every row at a time of its own there is one latest row, and it is the one that is read. */
  lemma LatestIff<T>(rows: seq<Row<T>>, submission: string, row: Row<T>, clock: nat)
    requires Ticking(rows, clock)
    ensures Latest(rows, submission) == Some(row) <==> IsLatest(rows, submission, row)
  {
    hide Latest, Of;
    LatestFound(rows, submission);
    if IsLatest(rows, submission, row) {
      var best := Latest(rows, submission).value;
      var i :| 0 <= i < |rows| && rows[i] == row;
      var j :| 0 <= j < |rows| && rows[j] == best;
      assert best.at == row.at;
    }
  }

  lemma LatestAppend<T>(rows: seq<Row<T>>, row: Row<T>, submission: string, clock: nat)
    requires Ticking(rows, clock) && clock <= row.at
    ensures Latest(rows + [row], submission) == if row.submission
            == submission then Some(row) else Latest(rows, submission)
    ensures Ticking(rows + [row], row.at + 1)
  {
    assert (rows + [row])[..|rows|] == rows;
    LatestFound(rows, submission);
  }

  // ----- rows

  datatype Submission = Submission(
    id: string,
    at: nat,
    counterparty: string,
    lineOfBusiness: string,
    tivEur: int,
    occupancy: string,
    country: string,
    requestedCover: string)

  datatype Decision = Decision(outcome: Outcome, reasonCodes: seq<ReasonCode>, appetiteVersion: int, decidedBy: string)

  /** The priced facts as they are stored with a quote: flags sorted, the adjustment as text. */
  datatype Manifest = Manifest(tivEur: int, occupancy: string, flags: seq<string>, commercialAdjustment: string)

  datatype Quote = Quote(id: string, price: RatingEngine.Breakdown, facts: Manifest, createdBy: string)

  datatype Binding = Binding(
    submission: string,
    quote: string,
    policyNumber: string,
    pasPolicyId: string,
    status: string,
    eventPublished: bool,
    boundAt: nat,
    boundBy: string)

  datatype AuditEvent =
    | Created(lineOfBusiness: string, tivEur: int)
    | Assessed(rulesetVersion: int, outcome: Outcome, reasonCodes: seq<ReasonCode>)
    | Quoted(rateTableVersion: int, premiumMinor: int, currency: string)
    | Bound(policyNumber: string, pasPolicyId: string, quote: string, premium: int, boundCurrency: string,
        eventPublished: bool)

  datatype Audit = Audit(actor: string, event: AuditEvent)

  /** An immutable version of a rule payload. */
  datatype Version<+R> = Version(version: int, rules: R)

  datatype Tables = Tables(
    submissions: seq<Submission>,
    decisions: seq<Row<Decision>>,
    quotes: seq<Row<Quote>>,
    bindings: seq<Binding>,
    audit: seq<Row<Audit>>,
    rulesets: seq<Version<AppetiteRules>>,
    rateTables: seq<Version<RatingTables.RateRules>>,
    clock: nat)

  const EMPTY := Tables([], [], [], [], [], [], [], 0)

  // ----- queries

  function FindSubmission(rows: seq<Submission>, id: string): Option<Submission> {
    if rows == [] then None
    else if rows[0].id == id then Some(rows[0])
    else FindSubmission(rows[1..], id)
  }

  lemma {:induction false} FoundSubmission(rows: seq<Submission>, id: string)
    ensures FindSubmission(rows, id).Some? ==>
              FindSubmission(rows, id).value in rows && FindSubmission(rows, id).value.id == id
    ensures FindSubmission(rows, id).None? ==> forall i :: 0 <= i < |rows| ==> rows[i].id != id
  {
    if rows != [] {
      FoundSubmission(rows[1..], id);
      assert forall i :: 1 <= i < |rows| ==> rows[i] == rows[1..][i - 1];
    }
  }

  lemma {:induction false} FindSubmissionStays(rows: seq<Submission>, more: seq<Submission>, id: string)
    requires FindSubmission(rows, id).Some?
    ensures FindSubmission(rows + more, id) == FindSubmission(rows, id)
  {
    assert (rows + more)[1..] == rows[1..] + more;
    if rows[0].id != id {
      FindSubmissionStays(rows[1..], more, id);
    }
  }

  lemma {:induction false} FindSubmissionNew(rows: seq<Submission>, row: Submission, id: string)
    requires FindSubmission(rows, id).None?
    ensures FindSubmission(rows + [row], id) == if row.id == id then Some(row) else None
  {
    if rows == [] {
      assert rows + [row] == [row] && [row][1..] == [];
    } else {
      assert (rows + [row])[1..] == rows[1..] + [row];
      FindSubmissionNew(rows[1..], row, id);
    }
  }

  function BindingsOf(rows: seq<Binding>, submission: string): seq<Binding> {
    if rows == [] then []
    else BindingsOf(rows[..|rows| - 1], submission)
         + if rows[|rows| - 1].submission == submission then [rows[|rows| - 1]] else []
  }

  function BindingOf(rows: seq<Binding>, submission: string): Option<Binding> {
    var found := BindingsOf(rows, submission);
    if found == [] then None else Some(found[0])
  }

  lemma BindingsAppend(rows: seq<Binding>, row: Binding, submission: string)
    ensures BindingsOf(rows + [row], submission)
            == if row.submission
               == submission then BindingsOf(rows, submission) + [row] else BindingsOf(rows, submission)
  {
    assert (rows + [row])[..|rows|] == rows;
  }

  lemma {:induction false} BindingsFound(rows: seq<Binding>, submission: string)
    ensures BindingsOf(rows, submission) == [] <==> forall i :: 0 <= i < |rows| ==> rows[i].submission != submission
    ensures forall b :: b in BindingsOf(rows, submission) ==> b in rows && b.submission == submission
  {
    if rows != [] {
      BindingsFound(rows[..|rows| - 1], submission);
    }
  }

  /** The highest version of a rule payload. */
  function Current<R>(rows: seq<Version<R>>): Option<Version<R>> {
    if rows == [] then None
    else
      var last, best := rows[|rows| - 1], Current(rows[..|rows| - 1]);
      if best.Some? && best.value.version > last.version then best else Some(last)
  }

  function GetVersion<R>(rows: seq<Version<R>>, version: int): Option<Version<R>> {
    if rows == [] then None
    else if rows[0].version == version then Some(rows[0])
    else GetVersion(rows[1..], version)
  }

  lemma {:induction false} CurrentIsStored<R>(rows: seq<Version<R>>)
    ensures Current(rows).Some? ==> Current(rows).value in rows
    ensures Current(rows).None? <==> rows == []
    ensures forall v :: v in rows ==> v.version <= Current(rows).value.version
  {
    if rows != [] {
      var init := rows[..|rows| - 1];
      CurrentIsStored(init);
      assert forall v :: v in rows ==> v in init || v == rows[|rows| - 1];
    }
  }

  /** The version is stored, and none is higher. */
  predicate IsHighest<R(==)>(rows: seq<Version<R>>, version: Version<R>) {
    version in rows && forall v :: v in rows ==> v.version <= version.version
  }

  /** The current version is the highest one. */
  lemma CurrentIff<R>(rows: seq<Version<R>>, version: Version<R>)
    requires VersionsDistinct(rows)
    ensures Current(rows) == Some(version) <==> IsHighest(rows, version)
  {
    hide Current;
    CurrentIsStored(rows);
    if IsHighest(rows, version) {
      var i :| 0 <= i < |rows| && rows[i] == version;
      var j :| 0 <= j < |rows| && rows[j] == Current(rows).value;
    }
  }

  predicate VersionsDistinct<R>(rows: seq<Version<R>>) {
    forall i, j :: 0 <= i < j < |rows| ==> rows[i].version != rows[j].version
  }

  lemma {:induction false} VersionStays<R>(rows: seq<Version<R>>, more: seq<Version<R>>, version: int)
    requires GetVersion(rows, version).Some?
    ensures GetVersion(rows + more, version) == GetVersion(rows, version)
  {
    assert (rows + more)[1..] == rows[1..] + more;
    if rows[0].version != version {
      VersionStays(rows[1..], more, version);
    }
  }

  lemma {:induction false} VersionFound<R>(rows: seq<Version<R>>, row: Version<R>)
    requires VersionsDistinct(rows) && row in rows
    ensures GetVersion(rows, row.version) == Some(row)
  {
    if rows[0] != row {
      var i :| 0 <= i < |rows| && rows[i] == row;
      assert rows[1..][i - 1] == row;
      VersionFound(rows[1..], row);
    }
  }

  lemma {:induction false} VersionMissing<R>(rows: seq<Version<R>>, version: int)
    ensures GetVersion(rows, version).None? <==> forall i :: 0 <= i < |rows| ==> rows[i].version != version
  {
    if rows != [] {
      VersionMissing(rows[1..], version);
      assert forall i :: 1 <= i < |rows| ==> rows[i] == rows[1..][i - 1];
    }
  }

  /** `create_version`: only ever an insert; a version that exists is refused by its unique key. */
  function CreateVersion<R>(rows: seq<Version<R>>, version: int, rules: R): seq<Version<R>> {
    if GetVersion(rows, version).Some? then rows else rows + [Version(version, rules)]
  }
}
