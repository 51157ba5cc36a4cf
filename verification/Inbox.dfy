/**
 * The inbox: submissions newest first, each joined to the decision of the greatest time among its own.
 * The database may order ties as it likes. When no two submissions share their time, and no two decisions
 * of one submission share its greatest time, there is one answer, and it lists every matching submission
 * once with its latest outcome.
 */
module Inbox {
  import opened Wrappers
  import opened Store
  import opened History
  import A = Appetite

  // ----- the query

  datatype Joined = Joined(submission: Submission, decision: Option<Row<Decision>>)

  /** `max(decided_at)` of one submission's group; no group, no maximum. */
  function MaxAt(rows: seq<Row<Decision>>, id: string): Option<nat> {
    if rows == [] then None
    else
      var last, best := rows[|rows| - 1], MaxAt(rows[..|rows| - 1], id);
      if last.submission != id then best
      else if best.Some? && best.value > last.at then best
      else Some(last.at)
  }

  /** A submission paired with every decision of its own at that time. */
  function PairedAt(rows: seq<Row<Decision>>, s: Submission, at: nat): seq<Joined> {
    if rows == [] then []
    else
      var last := rows[|rows| - 1];
      PairedAt(rows[..|rows| - 1], s, at)
      + if last.submission == s.id && last.at == at then [Joined(s, Some(last))] else []
  }

  /** The outer joins for one submission: a submission without decisions still gives a row. */
  function JoinOne(rows: seq<Row<Decision>>, s: Submission): seq<Joined> {
    var at := MaxAt(rows, s.id);
    if at.None? then [Joined(s, None)] else PairedAt(rows, s, at.value)
  }

  predicate Matches(outcome: Option<A.Outcome>, j: Joined) {
    outcome.Some? ==> j.decision.Some? && j.decision.value.body.outcome == outcome.value
  }

  function Kept(outcome: Option<A.Outcome>, joined: seq<Joined>): seq<Joined> {
    if joined == [] then []
    else (if Matches(outcome, joined[0]) then [joined[0]] else []) + Kept(outcome, joined[1..])
  }

  /** The rows of the statement, before ordering. */
  function Selected(subs: seq<Submission>, rows: seq<Row<Decision>>, outcome: Option<A.Outcome>): seq<Joined> {
    if subs == [] then []
    else Kept(outcome, JoinOne(rows, subs[|subs| - 1])) + Selected(subs[..|subs| - 1], rows, outcome)
  }

  /** What `ORDER BY created_at DESC` promises. */
  predicate NewestFirst(answer: seq<Joined>) {
    forall i, j :: 0 <= i < j < |answer| ==> answer[i].submission.at >= answer[j].submission.at
  }

  /** An answer the database may give: the selected rows, each as often as selected, newest submission first. */
  predicate IsAnswer(db: Tables, outcome: Option<A.Outcome>, answer: seq<Joined>) {
    NewestFirst(answer) && multiset(answer) == multiset(Selected(db.submissions, db.decisions, outcome))
  }

  /** The rows from `offset` on, at most `limit` of them and no fewer than there are. */
  ghost predicate IsPage<X>(rows: seq<X>, limit: nat, offset: nat, page: seq<X>) {
    var left := if offset <= |rows| then |rows| - offset else 0;
    && |page| == (if limit <= left then limit else left)
    && forall k :: 0 <= k < |page| ==> page[k] == rows[offset + k]
  }

  /** `LIMIT` and `OFFSET`. */
  function Page<X>(rows: seq<X>, limit: nat, offset: nat): seq<X> {
    if |rows| <= offset then []
    else if |rows| - offset <= limit then rows[offset..]
    else rows[offset..offset + limit]
  }

  /** A page for every limit and offset: item `k` of it is item `offset + k` of the rows, and none is missing. */
  lemma PageMeans<X>(rows: seq<X>, limit: nat, offset: nat)
    ensures IsPage(rows, limit, offset, Page(rows, limit, offset))
  {
    assert forall k :: 0 <= k < |Page(rows, limit, offset)| ==> Page(rows, limit, offset)[k] == rows[offset + k];
  }

  // ----- the items

  datatype Item = Item(submission: Submission, latestOutcome: Option<A.Outcome>, bound: bool)

  /** An item read off the per-submission queries. */
  function ItemOf(db: Tables, s: Submission): Item {
    var decision := Latest(db.decisions, s.id);
    Item(s, if decision.Some? then Some(decision.value.body.outcome) else None, BindingOf(db.bindings, s.id).Some?)
  }

  /** Every matching submission, newest first. */
  function Listing(db: Tables, subs: seq<Submission>, outcome: Option<A.Outcome>): seq<Item> {
    if subs == [] then []
    else
      var item := ItemOf(db, subs[|subs| - 1]);
      (if outcome.None? || item.latestOutcome == outcome then [item] else []) + Listing(db, subs[..|subs| - 1], outcome)
  }

  function JoinedItem(db: Tables, j: Joined): Item {
    Item(
      j.submission,
      if j.decision.Some? then Some(j.decision.value.body.outcome) else None,
      exists i :: 0 <= i < |db.bindings| && db.bindings[i].submission == j.submission.id)
  }

  function JoinedItems(db: Tables, joined: seq<Joined>): seq<Item> {
    seq(|joined|, i requires 0 <= i < |joined| => JoinedItem(db, joined[i]))
  }

  // ----- ties

  predicate Beaten(rows: seq<Row<Decision>>, id: string, at: nat) {
    exists k :: 0 <= k < |rows| && rows[k].submission == id && rows[k].at > at
  }

  /** No two decisions of the submission share its greatest time. */
  predicate NoTopTie(rows: seq<Row<Decision>>, id: string) {
    forall i, j ::
      && 0 <= i < j < |rows| && rows[i].submission == id && rows[j].submission == id && rows[i].at == rows[j].at
      ==> Beaten(rows, id, rows[i].at)
  }

  lemma TickingHasNoTie(rows: seq<Row<Decision>>, id: string, clock: nat)
    requires Ticking(rows, clock)
    ensures NoTopTie(rows, id)
  {
  }

  lemma {:induction false} MaxAtMeans(rows: seq<Row<Decision>>, id: string)
    ensures MaxAt(rows, id).None? <==> forall i :: 0 <= i < |rows| ==> rows[i].submission != id
    ensures MaxAt(rows, id).Some? ==>
              && (forall i :: 0 <= i < |rows| && rows[i].submission == id ==> rows[i].at <= MaxAt(rows, id).value)
              && exists i :: 0 <= i < |rows| && rows[i].submission == id && rows[i].at == MaxAt(rows, id).value
  {
    if rows != [] {
      var init, last := rows[..|rows| - 1], rows[|rows| - 1];
      MaxAtMeans(init, id);
      assert rows == init + [last];
      if MaxAt(init, id).Some? {
        var i :| 0 <= i < |init| && init[i].submission == id && init[i].at == MaxAt(init, id).value;
        assert rows[i] == init[i];
      }
      assert rows[|rows| - 1] == last;
    }
  }

  /** The paired rows are the decisions of the submission at that time. */
  lemma {:induction false} PairedMeans(rows: seq<Row<Decision>>, s: Submission, at: nat)
    ensures forall j :: j in PairedAt(rows, s, at) ==>
              j.decision.Some? && j == Joined(s, j.decision) && j.decision.value in rows
              && j.decision.value.submission == s.id && j.decision.value.at == at
    ensures PairedAt(rows, s, at) != []
            <==> exists i :: 0 <= i < |rows| && rows[i].submission == s.id && rows[i].at == at
  {
    if rows != [] {
      var init := rows[..|rows| - 1];
      PairedMeans(init, s, at);
      if i :| 0 <= i < |rows| && rows[i].submission == s.id && rows[i].at == at && i < |init| {
        assert init[i] == rows[i];
      }
    }
  }

  predicate OwnAt(rows: seq<Row<Decision>>, s: Submission, at: nat, i: int) {
    0 <= i < |rows| && rows[i].submission == s.id && rows[i].at == at
  }

  lemma {:induction false} PairFound(rows: seq<Row<Decision>>, s: Submission, at: nat) returns (i: nat, j: nat)
    requires |PairedAt(rows, s, at)| >= 2
    ensures i < j && OwnAt(rows, s, at, i) && OwnAt(rows, s, at, j)
  {
    var n, init := |rows| - 1, rows[..|rows| - 1];
    assert forall k :: 0 <= k < n ==> init[k] == rows[k];
    if |PairedAt(init, s, at)| >= 2 {
      i, j := PairFound(init, s, at);
    } else {
      PairedMeans(init, s, at);
      i :| 0 <= i < |init| && init[i].submission == s.id && init[i].at == at;
      j := n;
    }
  }

  lemma {:induction false} PairCounts(rows: seq<Row<Decision>>, s: Submission, at: nat, i: nat, j: nat)
    requires i < j && OwnAt(rows, s, at, i) && OwnAt(rows, s, at, j)
    ensures |PairedAt(rows, s, at)| >= 2
  {
    var n, init := |rows| - 1, rows[..|rows| - 1];
    assert init[i] == rows[i];
    if j < n {
      assert init[j] == rows[j];
      PairCounts(init, s, at, i, j);
    } else {
      PairedMeans(init, s, at);
    }
  }

  /** A submission is joined at least once, and once exactly when no two of its decisions share its greatest time. */
  lemma JoinedOncePerTie(rows: seq<Row<Decision>>, s: Submission)
    ensures |JoinOne(rows, s)| >= 1
    ensures |JoinOne(rows, s)| == 1 <==> NoTopTie(rows, s.id)
  {
    hide MaxAt, PairedAt;
    MaxAtMeans(rows, s.id);
    if MaxAt(rows, s.id).Some? {
      var at := MaxAt(rows, s.id).value;
      PairedMeans(rows, s, at);
      if |PairedAt(rows, s, at)| >= 2 {
        var i, j := PairFound(rows, s, at);
        assert !Beaten(rows, s.id, at);
      } else {
        forall i: nat, j: nat | i < j && OwnAt(rows, s, at, i) ensures !OwnAt(rows, s, at, j) {
          if OwnAt(rows, s, at, j) {
            PairCounts(rows, s, at, i, j);
          }
        }
        OnlyTop(rows, s, at);
      }
    }
  }

  lemma OnlyTop(rows: seq<Row<Decision>>, s: Submission, at: nat)
    requires exists k :: 0 <= k < |rows| && rows[k].submission == s.id && rows[k].at == at
    requires forall k :: 0 <= k < |rows| && rows[k].submission == s.id ==> rows[k].at <= at
    requires forall i: nat, j: nat :: i < j && OwnAt(rows, s, at, i) ==> !OwnAt(rows, s, at, j)
    ensures NoTopTie(rows, s.id)
  {
    var k :| 0 <= k < |rows| && rows[k].submission == s.id && rows[k].at == at;
    forall i, j | 0 <= i < j < |rows| && rows[i].submission == s.id && rows[j].submission == s.id
        && rows[i].at == rows[j].at
      ensures Beaten(rows, s.id, rows[i].at)
    {
      assert OwnAt(rows, s, rows[i].at, i) && OwnAt(rows, s, rows[i].at, j);
    }
  }

  /** Two assessments at the same time list their submission twice. */
  lemma TiedDecisionsRepeat(s: Submission, first: Decision, second: Decision, at: nat)
    ensures var rows := [Row(s.id, at, first), Row(s.id, at, second)];
            JoinOne(rows, s) == [Joined(s, Some(rows[0])), Joined(s, Some(rows[1]))]
  {
    var rows := [Row(s.id, at, first), Row(s.id, at, second)];
    assert rows[..1] == [rows[0]] && rows[..1][..0] == [];
    assert MaxAt(rows[..1], s.id) == Some(at);
    assert PairedAt(rows[..1], s, at) == [Joined(s, Some(rows[0]))];
  }

  // ----- the join is the latest decision

  lemma LatestJoins(rows: seq<Row<Decision>>, s: Submission)
    requires NoTopTie(rows, s.id)
    ensures JoinOne(rows, s) == [Joined(s, Latest(rows, s.id))]
  {
    hide MaxAt, PairedAt, Latest;
    JoinedOncePerTie(rows, s);
    MaxAtMeans(rows, s.id);
    LatestFound(rows, s.id);
    if MaxAt(rows, s.id).Some? {
      var at := MaxAt(rows, s.id).value;
      PairedMeans(rows, s, at);
      var joined := JoinOne(rows, s)[0];
      assert joined in PairedAt(rows, s, at);
      var i :| 0 <= i < |rows| && rows[i] == joined.decision.value;
      var best := Latest(rows, s.id).value;
      var j :| 0 <= j < |rows| && rows[j] == best;
      assert rows[i].at == rows[j].at == at;
    }
  }

  /** The expected answer: each matching submission with its latest decision, newest first. */
  function Expected(subs: seq<Submission>, rows: seq<Row<Decision>>, outcome: Option<A.Outcome>): seq<Joined> {
    if subs == [] then []
    else
      var j := Joined(subs[|subs| - 1], Latest(rows, subs[|subs| - 1].id));
      (if Matches(outcome, j) then [j] else []) + Expected(subs[..|subs| - 1], rows, outcome)
  }

  predicate OlderFirst(subs: seq<Submission>) {
    forall i, j :: 0 <= i < j < |subs| ==> subs[i].at < subs[j].at
  }

  lemma {:induction false} SelectedIsExpected(subs: seq<Submission>, rows: seq<Row<Decision>>,
          outcome: Option<A.Outcome>)
    requires forall s :: s in subs ==> NoTopTie(rows, s.id)
    ensures Selected(subs, rows, outcome) == Expected(subs, rows, outcome)
  {
    hide Latest, JoinOne, NoTopTie;
    if subs != [] {
      var s := subs[|subs| - 1];
      SelectedIsExpected(subs[..|subs| - 1], rows, outcome);
      LatestJoins(rows, s);
      var j := Joined(s, Latest(rows, s.id));
      assert [j][1..] == [];
      assert Kept(outcome, [j]) == if Matches(outcome, j) then [j] else [];
    }
  }

  lemma {:induction false} ExpectedAmong(subs: seq<Submission>, rows: seq<Row<Decision>>, outcome: Option<A.Outcome>)
    ensures forall j :: j in Expected(subs, rows, outcome) ==> j.submission in subs
  {
    hide Latest, Matches;
    if subs != [] {
      ExpectedAmong(subs[..|subs| - 1], rows, outcome);
    }
  }

  lemma FirstIsNewer(first: Joined, rest: seq<Joined>)
    requires StrictlyNewest(rest) && forall j :: j in rest ==> j.submission.at < first.submission.at
    ensures StrictlyNewest([first] + rest)
  {
  }

  lemma {:induction false} ExpectedNewest(subs: seq<Submission>, rows: seq<Row<Decision>>, outcome: Option<A.Outcome>)
    requires OlderFirst(subs)
    ensures StrictlyNewest(Expected(subs, rows, outcome))
  {
    hide Latest, Matches, StrictlyNewest;
    if subs == [] {
      NothingIsNewest();
    } else {
      var init, s := subs[..|subs| - 1], subs[|subs| - 1];
      var rest := Expected(init, rows, outcome);
      ExpectedNewest(init, rows, outcome);
      ExpectedAmong(init, rows, outcome);
      assert forall x :: x in init ==> x.at < s.at;
      FirstIsNewer(Joined(s, Latest(rows, s.id)), rest);
      assert [] + rest == rest;
    }
  }

  lemma NothingIsNewest()
    ensures StrictlyNewest([])
  {
  }

  predicate StrictlyNewest(answer: seq<Joined>) {
    forall i, j :: 0 <= i < j < |answer| ==> answer[i].submission.at > answer[j].submission.at
  }

  lemma SameNewest(a: seq<Joined>, b: seq<Joined>)
    requires NewestFirst(a) && StrictlyNewest(b) && multiset(a) == multiset(b) && a != []
    ensures b != [] && a[0] == b[0]
  {
    assert a[0] in multiset(a);
    var i :| 0 <= i < |b| && b[i] == a[0];
    assert b[0] in multiset(b);
    var j :| 0 <= j < |a| && a[j] == b[0];
  }

  lemma RestAlike(a: seq<Joined>, b: seq<Joined>)
    requires a != [] && b != [] && a[0] == b[0] && multiset(a) == multiset(b)
    ensures multiset(a[1..]) == multiset(b[1..])
  {
    assert a == [a[0]] + a[1..] && b == [b[0]] + b[1..];
    assert multiset(a[1..]) == multiset(a) - multiset{a[0]} && multiset(b[1..]) == multiset(b) - multiset{b[0]};
  }

  /** A sequence with no ties has only one ordering. */
  lemma {:induction false} OneOrdering(a: seq<Joined>, b: seq<Joined>)
    requires NewestFirst(a) && StrictlyNewest(b) && multiset(a) == multiset(b)
    ensures a == b
  {
    if a == [] {
      assert |b| == |multiset(b)|;
    } else {
      SameNewest(a, b);
      RestAlike(a, b);
      OneOrdering(a[1..], b[1..]);
      assert a == [a[0]] + a[1..] && b == [b[0]] + b[1..];
    }
  }

  lemma {:induction false} ExpectedItems(db: Tables, subs: seq<Submission>, outcome: Option<A.Outcome>)
    ensures JoinedItems(db, Expected(subs, db.decisions, outcome)) == Listing(db, subs, outcome)
  {
    hide Latest, BindingsOf;
    if subs != [] {
      var s := subs[|subs| - 1];
      ExpectedItems(db, subs[..|subs| - 1], outcome);
      BindingsFound(db.bindings, s.id);
      assert JoinedItem(db, Joined(s, Latest(db.decisions, s.id))) == ItemOf(db, s);
    }
  }

  lemma NoTies(db: Tables)
    requires Chronological(db)
    ensures TimesDistinct(db)
  {
    hide NoTopTie, Ticking;
    forall s | s in db.submissions ensures NoTopTie(db.decisions, s.id) {
      TickingHasNoTie(db.decisions, s.id, db.clock);
    }
  }

  /** Where rows are stamped in the order they are inserted, that list is the submissions from last to first. */
  lemma InboxAgreesInOrder(db: Tables, outcome: Option<A.Outcome>, answer: seq<Joined>)
    requires Chronological(db) && IsAnswer(db, outcome, answer)
    ensures answer == Expected(db.submissions, db.decisions, outcome)
    ensures JoinedItems(db, answer) == Listing(db, db.submissions, outcome)
  {
    hide Expected, Selected, Listing;
    NoTies(db);
    SelectedIsExpected(db.submissions, db.decisions, outcome);
    ExpectedNewest(db.submissions, db.decisions, outcome);
    OneOrdering(answer, Expected(db.submissions, db.decisions, outcome));
    ExpectedItems(db, db.submissions, outcome);
  }

  // ----- any order of insertion

  /** No two submissions share their time, and no two decisions of one share its greatest. */
  predicate TimesDistinct(db: Tables) {
    && (forall i, j :: 0 <= i < j < |db.submissions| ==> db.submissions[i].at != db.submissions[j].at)
    && forall s :: s in db.submissions ==> NoTopTie(db.decisions, s.id)
  }

  predicate NewestItems(items: seq<Item>) {
    forall i, j :: 0 <= i < j < |items| ==> items[i].submission.at > items[j].submission.at
  }

  /** Strictly newest first, exactly the matching submissions, each as the per-submission queries see it. */
  ghost predicate Lists(db: Tables, outcome: Option<A.Outcome>, items: seq<Item>) {
    && NewestItems(items)
    && forall item :: item in items <==>
         item.submission in db.submissions && item == ItemOf(db, item.submission)
             && (outcome.None? || item.latestOutcome == outcome)
  }

  /** There is only one such list. */
  lemma {:induction false} OneList(a: seq<Item>, b: seq<Item>)
    requires NewestItems(a) && NewestItems(b) && forall item :: item in a <==> item in b
    ensures a == b
  {
    if a != [] {
      assert a[0] in b;
    }
    if b != [] {
      assert b[0] in a;
      assert a[0] == b[0];
      assert a == [a[0]] + a[1..] && b == [b[0]] + b[1..];
      forall item ensures item in a[1..] <==> item in b[1..] {
        assert item in a[1..] <==> item in a && item != a[0];
        assert item in b[1..] <==> item in b && item != b[0];
      }
      OneList(a[1..], b[1..]);
    }
  }

  lemma {:induction false} ExpectedHolds(subs: seq<Submission>, rows: seq<Row<Decision>>, outcome: Option<A.Outcome>)
    requires forall i, j :: 0 <= i < j < |subs| ==> subs[i].at != subs[j].at
    ensures forall j :: j in Expected(subs, rows, outcome) <==>
              j.submission in subs && j == Joined(j.submission, Latest(rows, j.submission.id)) && Matches(outcome, j)
    ensures forall j :: multiset(Expected(subs, rows, outcome))[j] <= 1
  {
    hide Latest, Matches;
    if subs != [] {
      var init, s := subs[..|subs| - 1], subs[|subs| - 1];
      ExpectedHolds(init, rows, outcome);
      assert subs == init + [s];
      assert forall x :: x in init ==> x.at != s.at;
      assert Joined(s, Latest(rows, s.id)) !in Expected(init, rows, outcome);
    }
  }

  lemma AnswerHolds(db: Tables, outcome: Option<A.Outcome>, answer: seq<Joined>)
    requires TimesDistinct(db) && IsAnswer(db, outcome, answer)
    ensures StrictlyNewest(answer)
    ensures forall j :: j in answer <==>
              j.submission in db.submissions && j == Joined(j.submission, Latest(db.decisions, j.submission.id))
                  && Matches(outcome, j)
  {
    hide Expected, Selected, Latest, Matches, NoTopTie;
    var expected := Expected(db.submissions, db.decisions, outcome);
    SelectedIsExpected(db.submissions, db.decisions, outcome);
    ExpectedHolds(db.submissions, db.decisions, outcome);
    forall j ensures j in answer <==> j in expected {
      assert j in answer <==> j in multiset(answer);
      assert j in expected <==> j in multiset(expected);
    }
    forall i, j | 0 <= i < j < |answer| ensures answer[i].submission.at > answer[j].submission.at {
      OnlyOnce(answer, i, j);
      assert answer[i] in answer && answer[j] in answer;
    }
  }

  lemma OnlyOnce(answer: seq<Joined>, i: nat, j: nat)
    requires i < j < |answer| && multiset(answer)[answer[i]] <= 1
    ensures answer[i] != answer[j]
  {
    assert answer == answer[..j] + ([answer[j]] + answer[j + 1..]);
    assert answer[i] in answer[..j];
  }

  /**
   * With no ties, in whatever order the rows were inserted, every answer the database may give is the one
   * list that asking for the latest decision and the binding of each submission in turn gives.
   */
  lemma InboxAgrees(db: Tables, outcome: Option<A.Outcome>, answer: seq<Joined>)
    requires TimesDistinct(db) && IsAnswer(db, outcome, answer)
    ensures Lists(db, outcome, JoinedItems(db, answer))
    ensures forall items :: Lists(db, outcome, items) ==> items == JoinedItems(db, answer)
  {
    hide TimesDistinct, IsAnswer, Latest, BindingsOf, StrictlyNewest;
    AnswerHolds(db, outcome, answer);
    var items := JoinedItems(db, answer);
    StrictItems(db, answer);
    forall s: Submission ensures JoinedItem(db, Joined(s, Latest(db.decisions, s.id))) == ItemOf(db, s) {
      BindingsFound(db.bindings, s.id);
    }
    forall item
      ensures item in items <==>
              item.submission in db.submissions && item == ItemOf(db, item.submission)
              && (outcome.None? || item.latestOutcome == outcome)
    {
      var j := Joined(item.submission, Latest(db.decisions, item.submission.id));
      if item in items {
        var i :| 0 <= i < |items| && items[i] == item;
        assert answer[i] in answer;
      }
      if j in answer {
        var i :| 0 <= i < |answer| && answer[i] == j;
        assert items[i] == JoinedItem(db, j);
      }
    }
    forall other | Lists(db, outcome, other) ensures other == items {
      OneList(other, items);
    }
  }

  lemma StrictItems(db: Tables, answer: seq<Joined>)
    requires StrictlyNewest(answer)
    ensures NewestItems(JoinedItems(db, answer))
  {
  }

  lemma PageOfItems(db: Tables, joined: seq<Joined>, limit: nat, offset: nat)
    ensures JoinedItems(db, Page(joined, limit, offset)) == Page(JoinedItems(db, joined), limit, offset)
  {
  }

  lemma InboxPageAgrees(db: Tables, outcome: Option<A.Outcome>, answer: seq<Joined>, limit: nat, offset: nat)
    requires IsAnswer(db, outcome, answer)
    ensures Chronological(db) ==>
              JoinedItems(db, Page(answer, limit, offset)) == Page(Listing(db, db.submissions, outcome), limit, offset)
    ensures forall whole :: TimesDistinct(db) && Lists(db, outcome, whole) ==>
              JoinedItems(db, Page(answer, limit, offset)) == Page(whole, limit, offset)
  {
    hide IsAnswer, Chronological, Page, JoinedItems, Listing, TimesDistinct, Lists;
    if TimesDistinct(db) {
      InboxAgrees(db, outcome, answer);
      PageOfItems(db, answer, limit, offset);
    }
    if Chronological(db) {
      InboxAgreesInOrder(db, outcome, answer);
      PageOfItems(db, answer, limit, offset);
    }
  }

  /**
   * `list_submissions`: one page of the answer, with the outcome of the joined decision and a flag from
   * the bindings of the submissions on the page.
   */
  method ListSubmissions(db: Tables, outcome: Option<A.Outcome>, limit: nat, offset: nat, answer: seq<Joined>)
    returns (items: seq<Item>)
    requires IsAnswer(db, outcome, answer)
    ensures items == JoinedItems(db, Page(answer, limit, offset))
    ensures Chronological(db) ==> items == Page(Listing(db, db.submissions, outcome), limit, offset)
    ensures forall whole :: TimesDistinct(db) && Lists(db, outcome, whole) ==> items == Page(whole, limit, offset)
    ensures forall whole :: TimesDistinct(db) && Lists(db, outcome, whole) ==> IsPage(whole, limit, offset, items)
  {
    hide IsAnswer, Chronological, Page, IsPage, Listing, TimesDistinct, Lists;
    InboxPageAgrees(db, outcome, answer, limit, offset);
    forall whole: seq<Item> ensures IsPage(whole, limit, offset, Page(whole, limit, offset)) {
      PageMeans(whole, limit, offset);
    }
    var rows := Page(answer, limit, offset);
    var ids := set i | 0 <= i < |rows| :: rows[i].submission.id;
    var boundIds: set<string> := {};
    if ids != {} {
      boundIds := set i | 0 <= i < |db.bindings| && db.bindings[i].submission in ids :: db.bindings[i].submission;
    }
    items := [];
    for k := 0 to |rows|
      invariant |items| == k && forall i :: 0 <= i < k ==> items[i] == JoinedItem(db, rows[i])
    {
      var j := rows[k];
      assert j.submission.id in ids;
      items := items + [Item(
        j.submission,
        if j.decision.Some? then Some(j.decision.value.body.outcome) else None,
        j.submission.id in boundIds)];
    }
  }

  // ----- every matching submission, once

  /** The listing holds an item for a submission exactly when its latest outcome matches, and never two. */
  lemma {:induction false} ListedOnce(db: Tables, subs: seq<Submission>, outcome: Option<A.Outcome>)
    requires OlderFirst(subs)
    ensures var items := Listing(db, subs, outcome);
            && (forall i, j :: 0 <= i < j < |items| ==> items[i].submission.at > items[j].submission.at)
            && (forall item :: item in items <==>
                  && item.submission in subs && item == ItemOf(db, item.submission)
                  && (outcome.None? || item.latestOutcome == outcome))
  {
    hide ItemOf;
    if subs != [] {
      var init, s := subs[..|subs| - 1], subs[|subs| - 1];
      ListedOnce(db, init, outcome);
      assert subs == init + [s];
      assert forall x :: x in init ==> x.at < s.at;
      ItemNames(db, s);
    }
  }

  /** The decision is the submission's own, and none of its own is later. */
  predicate LatestOutcomeIs(db: Tables, id: string, outcome: A.Outcome) {
    exists i :: 0 <= i < |db.decisions| && db.decisions[i].submission == id && db.decisions[i].body.outcome == outcome
                && !Beaten(db.decisions, id, db.decisions[i].at)
  }

  /**
   * What an item shows: no outcome exactly when the submission has no decision, otherwise that of a decision
   * of its own than which none is later, and the bound flag exactly when a binding names the submission.
   */
  lemma ItemMeans(db: Tables, s: Submission)
    ensures var item := ItemOf(db, s);
            && item.submission == s
            && (item.latestOutcome.None? <==> forall d :: d in db.decisions ==> d.submission != s.id)
            && (item.latestOutcome.Some? ==> LatestOutcomeIs(db, s.id, item.latestOutcome.value))
            && (item.bound <==> exists b :: b in db.bindings && b.submission == s.id)
  {
    hide Latest, BindingsOf, Of;
    LatestFound(db.decisions, s.id);
    BindingsFound(db.bindings, s.id);
    var best := Latest(db.decisions, s.id);
    if best.Some? {
      var i :| 0 <= i < |db.decisions| && db.decisions[i] == best.value;
      assert !Beaten(db.decisions, s.id, db.decisions[i].at);
    }
  }

  lemma ItemNames(db: Tables, s: Submission)
    ensures ItemOf(db, s).submission == s
  {
  }

  /** The first `n` pages, one after the other. */
  function Pages<X>(rows: seq<X>, limit: nat, n: nat): seq<X> {
    if n == 0 then [] else Pages(rows, limit, n - 1) + Page(rows, limit, limit * (n - 1))
  }

  /** Consecutive pages put together are the list up to where they end: nothing is skipped or repeated. */
  lemma {:induction false} PagesCover<X>(rows: seq<X>, limit: nat, n: nat)
    ensures Pages(rows, limit, n) == if limit * n <= |rows| then rows[..limit * n] else rows
  {
    if n > 0 {
      PagesCover(rows, limit, n - 1);
      assert limit * n == limit * (n - 1) + limit;
    }
  }

  // ----- ties in the whole answer

  lemma {:induction false} KeptAll(joined: seq<Joined>)
    ensures Kept(None, joined) == joined
  {
    if joined != [] {
      KeptAll(joined[1..]);
    }
  }

  lemma {:induction false} SelectedCount(subs: seq<Submission>, rows: seq<Row<Decision>>)
    ensures |Selected(subs, rows, None)| >= |subs|
    ensures |Selected(subs, rows, None)| == |subs| <==> forall s :: s in subs ==> NoTopTie(rows, s.id)
  {
    hide JoinOne, NoTopTie;
    if subs != [] {
      var init, s := subs[..|subs| - 1], subs[|subs| - 1];
      SelectedCount(init, rows);
      JoinedOncePerTie(rows, s);
      KeptAll(JoinOne(rows, s));
      assert subs == init + [s];
    }
  }

  /**
   * The unfiltered inbox never has fewer rows than there are submissions, and it has as many exactly when
   * no submission has two decisions at its greatest time.
   */
  lemma OneRowEach(db: Tables, answer: seq<Joined>)
    requires IsAnswer(db, None, answer)
    ensures |answer| >= |db.submissions|
    ensures |answer| == |db.submissions| <==> forall s :: s in db.submissions ==> NoTopTie(db.decisions, s.id)
  {
    hide Selected, NoTopTie, NewestFirst;
    SelectedCount(db.submissions, db.decisions);
    assert |answer| == |multiset(answer)| == |multiset(Selected(db.submissions, db.decisions, None))|;
  }

  // ----- ties under a filter

  predicate Own(row: Row<Decision>, id: string, outcome: Option<A.Outcome>) {
    row.submission == id && (outcome.Some? ==> row.body.outcome == outcome.value)
  }

  /** Two decisions share the submission's greatest time and both pass the filter. */
  predicate TopTie(rows: seq<Row<Decision>>, id: string, outcome: Option<A.Outcome>) {
    exists i, j :: 0 <= i < j < |rows| && Own(rows[i], id, outcome) && Own(rows[j], id, outcome)
                   && rows[i].at == rows[j].at && !Beaten(rows, id, rows[i].at)
  }

  lemma {:induction false} KeptAppend(outcome: Option<A.Outcome>, a: seq<Joined>, b: seq<Joined>)
    ensures Kept(outcome, a + b) == Kept(outcome, a) + Kept(outcome, b)
  {
    hide Matches;
    if a == [] {
      assert a + b == b;
    } else {
      var first := if Matches(outcome, a[0]) then [a[0]] else [];
      KeptAppend(outcome, a[1..], b);
      assert (a + b)[0] == a[0] && (a + b)[1..] == a[1..] + b;
      assert first + (Kept(outcome, a[1..]) + Kept(outcome, b)) == first + Kept(outcome, a[1..]) + Kept(outcome, b);
    }
  }

  predicate PassesAt(rows: seq<Row<Decision>>, s: Submission, at: nat, outcome: Option<A.Outcome>, i: int) {
    0 <= i < |rows| && Own(rows[i], s.id, outcome) && rows[i].at == at
  }

  /** The paired rows that pass a filter, when one more decision is stored. */
  lemma KeptPairNext(rows: seq<Row<Decision>>, s: Submission, at: nat, outcome: Option<A.Outcome>)
    requires rows != []
    ensures var n, init := |rows| - 1, rows[..|rows| - 1];
            Kept(outcome, PairedAt(rows, s, at))
            == Kept(outcome, PairedAt(init, s, at))
               + if PassesAt(rows, s, at, outcome, n) then [Joined(s, Some(rows[n]))] else []
  {
    var n, init := |rows| - 1, rows[..|rows| - 1];
    var j := Joined(s, Some(rows[n]));
    KeptAppend(outcome, PairedAt(init, s, at), if rows[n].submission == s.id && rows[n].at == at then [j] else []);
    assert [j][1..] == [];
    assert Kept(outcome, [j]) == if Matches(outcome, j) then [j] else [];
  }

  lemma {:induction false} KeptPairSome(rows: seq<Row<Decision>>, s: Submission, at: nat, outcome: Option<A.Outcome>)
    returns (i: nat)
    requires Kept(outcome, PairedAt(rows, s, at)) != []
    ensures PassesAt(rows, s, at, outcome, i)
  {
    hide Kept, PairedAt;
    if rows == [] {
      NothingPaired(s, at, outcome);
    } else {
      var n, init := |rows| - 1, rows[..|rows| - 1];
      KeptPairNext(rows, s, at, outcome);
      if PassesAt(rows, s, at, outcome, n) {
        i := n;
      } else {
        i := KeptPairSome(init, s, at, outcome);
      }
    }
  }

  lemma NothingPaired(s: Submission, at: nat, outcome: Option<A.Outcome>)
    ensures Kept(outcome, PairedAt([], s, at)) == []
  {
  }

  lemma {:induction false} KeptPairFound(rows: seq<Row<Decision>>, s: Submission, at: nat, outcome: Option<A.Outcome>)
    returns (i: nat, j: nat)
    requires |Kept(outcome, PairedAt(rows, s, at))| >= 2
    ensures i < j && PassesAt(rows, s, at, outcome, i) && PassesAt(rows, s, at, outcome, j)
  {
    hide Kept, PairedAt;
    if rows == [] {
      NothingPaired(s, at, outcome);
    } else {
      var n, init := |rows| - 1, rows[..|rows| - 1];
      KeptPairNext(rows, s, at, outcome);
      if |Kept(outcome, PairedAt(init, s, at))| >= 2 {
        i, j := KeptPairFound(init, s, at, outcome);
      } else {
        i := KeptPairSome(init, s, at, outcome);
        j := n;
      }
    }
  }

  lemma {:induction false} KeptPairCounts(rows: seq<Row<Decision>>, s: Submission, at: nat,
          outcome: Option<A.Outcome>, i: nat)
    requires PassesAt(rows, s, at, outcome, i)
    ensures Kept(outcome, PairedAt(rows, s, at)) != []
  {
    hide Kept, PairedAt;
    var n, init := |rows| - 1, rows[..|rows| - 1];
    KeptPairNext(rows, s, at, outcome);
    if i < n {
      KeptPairCounts(init, s, at, outcome, i);
    }
  }

  lemma {:induction false} KeptPairTwice(rows: seq<Row<Decision>>, s: Submission, at: nat, outcome: Option<A.Outcome>,
          i: nat, j: nat)
    requires i < j && PassesAt(rows, s, at, outcome, i) && PassesAt(rows, s, at, outcome, j)
    ensures |Kept(outcome, PairedAt(rows, s, at))| >= 2
  {
    hide Kept, PairedAt;
    var n, init := |rows| - 1, rows[..|rows| - 1];
    KeptPairNext(rows, s, at, outcome);
    if j < n {
      KeptPairTwice(init, s, at, outcome, i, j);
    } else {
      KeptPairCounts(init, s, at, outcome, i);
    }
  }

  /** Under a filter a submission is joined twice or more exactly when two passing decisions share its greatest time. */
  lemma KeptTwiceIff(rows: seq<Row<Decision>>, s: Submission, outcome: Option<A.Outcome>)
    ensures |Kept(outcome, JoinOne(rows, s))| >= 2 <==> TopTie(rows, s.id, outcome)
  {
    hide MaxAt, PairedAt;
    MaxAtMeans(rows, s.id);
    var best := MaxAt(rows, s.id);
    if best.None? {
      assert [Joined(s, None)][1..] == [];
    } else {
      var at := best.value;
      if |Kept(outcome, PairedAt(rows, s, at))| >= 2 {
        var i, j := KeptPairFound(rows, s, at, outcome);
        assert !Beaten(rows, s.id, at) && Own(rows[i], s.id, outcome) && Own(rows[j], s.id, outcome);
      }
      if TopTie(rows, s.id, outcome) {
        var i, j :| 0 <= i < j < |rows| && Own(rows[i], s.id, outcome) && Own(rows[j], s.id, outcome)
                    && rows[i].at == rows[j].at && !Beaten(rows, s.id, rows[i].at);
        assert rows[i].at == at;
        KeptPairTwice(rows, s, at, outcome, i, j);
      }
    }
  }

  /** How many rows of an answer are of this submission. */
  function RowsFor(joined: seq<Joined>, id: string): nat {
    if joined == [] then 0
    else RowsFor(joined[..|joined| - 1], id) + if joined[|joined| - 1].submission.id == id then 1 else 0
  }

  lemma {:induction false} RowsForAppend(a: seq<Joined>, b: seq<Joined>, id: string)
    ensures RowsFor(a + b, id) == RowsFor(a, id) + RowsFor(b, id)
  {
    if b == [] {
      assert a + b == a;
    } else {
      assert (a + b)[..|a + b| - 1] == a + b[..|b| - 1];
      RowsForAppend(a, b[..|b| - 1], id);
    }
  }

  lemma {:induction false} RowsForPermutes(a: seq<Joined>, b: seq<Joined>, id: string)
    requires multiset(a) == multiset(b)
    ensures RowsFor(a, id) == RowsFor(b, id)
    decreases |a|
  {
    if a == [] {
      assert |b| == |multiset(b)|;
    } else {
      var n := |a| - 1;
      assert a[n] in multiset(a);
      var i :| 0 <= i < |b| && b[i] == a[n];
      var rest := b[..i] + b[i + 1..];
      LeftOver(a, b, i);
      RowsForPermutes(a[..n], rest, id);
      RowsForAppend(b[..i], b[i + 1..], id);
      RowsForAppend(b[..i], [b[i]] + b[i + 1..], id);
      RowsForAppend([b[i]], b[i + 1..], id);
      assert b == b[..i] + ([b[i]] + b[i + 1..]);
      assert [b[i]][..0] == [];
    }
  }

  lemma LeftOver(a: seq<Joined>, b: seq<Joined>, i: nat)
    requires a != [] && i < |b| && b[i] == a[|a| - 1] && multiset(a) == multiset(b)
    ensures multiset(a[..|a| - 1]) == multiset(b[..i] + b[i + 1..])
  {
    assert a == a[..|a| - 1] + [a[|a| - 1]];
    assert b == b[..i] + ([b[i]] + b[i + 1..]);
    assert multiset(a[..|a| - 1]) == multiset(a) - multiset{b[i]};
    assert multiset(b[..i] + b[i + 1..]) == multiset(b) - multiset{b[i]};
  }

  lemma {:induction false} KeptAreOf(outcome: Option<A.Outcome>, joined: seq<Joined>, s: Submission, id: string)
    requires forall j :: j in joined ==> j.submission == s
    ensures RowsFor(Kept(outcome, joined), id) == if s.id == id then |Kept(outcome, joined)| else 0
  {
    if joined != [] {
      var first := if Matches(outcome, joined[0]) then [joined[0]] else [];
      KeptAreOf(outcome, joined[1..], s, id);
      RowsForAppend(first, Kept(outcome, joined[1..]), id);
      if first != [] {
        assert first[..0] == [] && joined[0] in joined;
      }
    }
  }

  lemma JoinedAreOf(rows: seq<Row<Decision>>, s: Submission)
    ensures forall j :: j in JoinOne(rows, s) ==> j.submission == s
  {
    hide MaxAt, PairedAt;
    if MaxAt(rows, s.id).Some? {
      PairedMeans(rows, s, MaxAt(rows, s.id).value);
    }
  }

  /** In the rows of the statement a submission stands as often as its own join keeps rows. */
  lemma {:induction false} SelectedRows(subs: seq<Submission>, rows: seq<Row<Decision>>, outcome: Option<A.Outcome>,
          id: string)
    requires forall i, j :: 0 <= i < j < |subs| ==> subs[i].id != subs[j].id
    ensures (forall s :: s in subs ==> s.id != id) ==> RowsFor(Selected(subs, rows, outcome), id) == 0
    ensures forall s :: s in subs && s.id == id ==>
              RowsFor(Selected(subs, rows, outcome), id) == |Kept(outcome, JoinOne(rows, s))|
  {
    hide JoinOne, Kept;
    if subs != [] {
      var init, last := subs[..|subs| - 1], subs[|subs| - 1];
      SelectedRows(init, rows, outcome, id);
      JoinedAreOf(rows, last);
      KeptAreOf(outcome, JoinOne(rows, last), last, id);
      RowsForAppend(Kept(outcome, JoinOne(rows, last)), Selected(init, rows, outcome), id);
      assert subs == init + [last];
      assert forall x :: x in init ==> x.id != last.id;
    }
  }

  /**
   * In every answer the database may give, filtered or not, a submission has two rows or more exactly when
   * two of its decisions share its greatest time and both pass the filter.
   */
  lemma RepeatsIff(db: Tables, outcome: Option<A.Outcome>, answer: seq<Joined>, s: Submission)
    requires Keyed(db) && IsAnswer(db, outcome, answer) && s in db.submissions
    ensures RowsFor(answer, s.id) >= 2 <==> TopTie(db.decisions, s.id, outcome)
  {
    hide JoinOne, Kept, Selected, TopTie, NewestFirst, RowsFor;
    RowsForPermutes(answer, Selected(db.submissions, db.decisions, outcome), s.id);
    SelectedRows(db.submissions, db.decisions, outcome, s.id);
    KeptTwiceIff(db.decisions, s, outcome);
  }
}
