/**
 * backend/src/models/faqModel.js: the faq_questions table, whose rows are addressed by
 * column name. Timestamps are whatever the rows hold; a missing or NULL one sorts last in a
 * descending order, as in MySQL.
 */
module FaqModel {
  import opened Wrappers
  import opened Text
  import opened JsValues
  import opened Store
  import opened SqlUpdate
  import Sorting

  function Col(row: Row, c: string): JsValue {
    if c in row then row[c] else Null
  }

  /** createQuestion: a new question is 'open' and has user_id NULL when no user is given. */
  function CreateQuestion(db: Db, userId: JsValue, question: JsValue, err: Option<Error>): (r: (Db, Result<int>))
    ensures err.Some? ==> r == (db, Err(err.value))
    ensures err.None? ==> (
      && r.1 == Ok(db.nextFaq) && db.nextFaq in r.0.faqs && r.0.nextFaq == db.nextFaq + 1
      && Col(r.0.faqs[db.nextFaq], "status") == Str("open")
      && Col(r.0.faqs[db.nextFaq], "user_id") == (if Truthy(userId) then userId else Null)
      && Col(r.0.faqs[db.nextFaq], "question") == (if question.Undefined? then Null else question)
      && forall id | id in db.faqs && id != db.nextFaq :: id in r.0.faqs && r.0.faqs[id] == db.faqs[id])
  {
    if err.Some? then (db, Err(err.value))
    else
      var id := db.nextFaq;
      var row := map["user_id" := Or(userId, Null), "question" := (if question.Undefined? then Null else question),
                     "status" := Str("open")];
      (db.(faqs := db.faqs[id := row], nextFaq := id + 1), Ok(id))
  }

  /** A datetime column as a sort key: NULL below every datetime. */
  function Stamp(row: Row, c: string): int {
    if c in row && row[c].Num? && row[c].n >= 0 then row[c].n else -1
  }

  predicate Published(row: Row) {
    (Col(row, "is_published") == Num(1) || Col(row, "is_published") == Bool(true)) && !Col(row, "answer").Null?
  }

  function PublishedIds(faqs: map<int, Row>, ids: seq<int>): (r: seq<int>)
    requires forall k | 0 <= k < |ids| :: ids[k] in faqs
    ensures forall k | 0 <= k < |r| :: r[k] in faqs && Published(faqs[r[k]])
    ensures forall k | 0 <= k < |ids| :: Published(faqs[ids[k]]) ==> ids[k] in r
    ensures forall x | x in r :: x in ids
  {
    if ids == [] then []
    else (if Published(faqs[ids[0]]) then [ids[0]] else []) + PublishedIds(faqs, ids[1..])
  }

  function UpdatedAt(faqs: map<int, Row>): int -> int {
    id => if id in faqs then Stamp(faqs[id], "updated_at") else -1
  }

  /** The published ids, most recently updated first (equal stamps: higher id first). */
  function PublishedOrder(db: Db): (ids: seq<int>)
  {
    var matching := PublishedIds(db.faqs, IdsBelow(db.faqs, db.nextFaq));
    Sorting.SortDesc(matching, UpdatedAt(db.faqs))
  }

  /** listPublishedFaqs: `WHERE is_published = 1 AND answer IS NOT NULL ORDER BY updated_at DESC`. */
  function ListPublishedFaqs(db: Db, err: Option<Error>): (r: Result<seq<JsValue>>)
    ensures err.Some? ==> r == Err(err.value)
  {
    if err.Some? then Err(err.value)
    else
      var ids := PublishedOrder(db);
      assert forall k | 0 <= k < |ids| :: ids[k] in multiset(ids);
      Ok(seq(|ids|, k requires 0 <= k < |ids| && ids[k] in db.faqs =>
        Obj([("id", Num(ids[k])), ("question", Col(db.faqs[ids[k]], "question")), ("answer", Col(db.faqs[ids[k]], "answer"))])))
  }

  /** Only published rows are listed. */
  lemma PublishedOrderOnlyPublished(db: Db)
    ensures forall id | id in PublishedOrder(db) :: id in db.faqs && Published(db.faqs[id])
  {
    var matching := PublishedIds(db.faqs, IdsBelow(db.faqs, db.nextFaq));
    forall id | id in PublishedOrder(db) ensures id in db.faqs && Published(db.faqs[id]) {
      assert id in multiset(PublishedOrder(db));
      assert id in multiset(matching);
    }
  }

  /** Every published row is listed exactly once. */
  lemma PublishedOrderComplete(db: Db)
    requires Valid(db)
    ensures forall id | id in db.faqs && Published(db.faqs[id]) :: multiset(PublishedOrder(db))[id] == 1
  {
    PublishedOnce(db.faqs, db.nextFaq);
  }

  lemma PublishedOnce(faqs: map<int, Row>, next: int)
    requires IdsUnder(faqs, next)
    ensures var matching := PublishedIds(faqs, IdsBelow(faqs, next));
      forall id | id in faqs && Published(faqs[id]) :: multiset(matching)[id] == 1
  {
    var all := IdsBelow(faqs, next);
    var matching := PublishedIds(faqs, all);
    DecreasingFilter(faqs, all);
    forall id | id in faqs && Published(faqs[id]) ensures multiset(matching)[id] == 1 {
      assert id in all;
      var k :| 0 <= k < |all| && all[k] == id;
      assert id in matching;
      SubsequenceOnce(matching, id);
    }
  }

  /** The list is in non-increasing updated_at order. */
  lemma PublishedOrderSorted(db: Db)
    ensures Sorting.SortedDesc(PublishedOrder(db), UpdatedAt(db.faqs))
  {
    Sorting.SortDescSorted(PublishedIds(db.faqs, IdsBelow(db.faqs, db.nextFaq)), UpdatedAt(db.faqs));
  }

  /** Published rows with equal updated_at are listed highest id first. */
  lemma PublishedTiesHigherIdFirst(db: Db)
    ensures Sorting.TiesDesc(PublishedOrder(db), UpdatedAt(db.faqs))
  {
    var all := IdsBelow(db.faqs, db.nextFaq);
    DecreasingFilter(db.faqs, all);
    Sorting.SortDescStable(PublishedIds(db.faqs, all), UpdatedAt(db.faqs));
  }

  lemma {:induction false} DecreasingFilter(faqs: map<int, Row>, ids: seq<int>)
    requires forall k | 0 <= k < |ids| :: ids[k] in faqs
    requires Decreasing(ids)
    ensures Decreasing(PublishedIds(faqs, ids))
  {
    if ids != [] {
      assert Decreasing(ids[1..]) by {
        forall a, b | 0 <= a < b < |ids[1..]| ensures ids[1..][a] > ids[1..][b] {
          assert ids[1..][a] == ids[a + 1] && ids[1..][b] == ids[b + 1];
        }
      }
      DecreasingFilter(faqs, ids[1..]);
      var rest := PublishedIds(faqs, ids[1..]);
      forall x | x in rest ensures ids[0] > x {
        assert x in ids[1..];
        var k :| 0 <= k < |ids[1..]| && ids[1..][k] == x;
        assert x == ids[k + 1];
      }
      if Published(faqs[ids[0]]) {
        var r := [ids[0]] + rest;
        assert PublishedIds(faqs, ids) == r;
        forall i, j | 0 <= i < j < |r| ensures r[i] > r[j] {
          assert r[j] == rest[j - 1];
          if i > 0 { assert r[i] == rest[i - 1]; } else { assert rest[j - 1] in rest; assert r[i] == ids[0]; }
        }
      } else {
        assert PublishedIds(faqs, ids) == rest;
      }
    }
  }

  /** An id of a strictly decreasing sequence occurs in it once. */
  lemma {:induction false} SubsequenceOnce(r: seq<int>, id: int)
    requires Decreasing(r)
    requires id in r
    ensures multiset(r)[id] == 1
    decreases |r|
  {
    assert r == [r[0]] + r[1..];
    if r[0] == id {
      assert id !in r[1..] by {
        forall k | 0 <= k < |r[1..]| ensures r[1..][k] != id { assert r[1..][k] == r[k + 1]; }
      }
    } else {
      assert Decreasing(r[1..]) by {
        forall a, b | 0 <= a < b < |r[1..]| ensures r[1..][a] > r[1..][b] {
          assert r[1..][a] == r[a + 1] && r[1..][b] == r[b + 1];
        }
      }
      SubsequenceOnce(r[1..], id);
    }
  }

  const ListQuestionsBase :=
    "SELECT fq.id, fq.user_id, u.email, fq.question, fq.answer, fq.is_published, fq.status, fq.created_at, " +
    "fq.updated_at, fq.answered_by, fq.answered_at FROM faq_questions fq LEFT JOIN users u ON fq.user_id = u.id"

  /** `status && status !== 'all'`: whether listQuestions filters. */
  predicate FiltersStatus(status: JsValue) {
    Truthy(status) && status != Str("all")
  }

  /** listQuestions' statement and parameters, built step by step. */
  method BuildListQuestions(status: JsValue) returns (sql: string, params: seq<JsValue>)
    ensures FiltersStatus(status) ==> params == [status]
    ensures !FiltersStatus(status) ==> params == []
    ensures sql == ListQuestionsBase + (if FiltersStatus(status) then " WHERE fq.status = ?" else "")
      + " ORDER BY fq.created_at DESC"
  {
    sql := ListQuestionsBase;
    params := [];
    if FiltersStatus(status) {
      sql := sql + " WHERE fq.status = ?";
      params := params + [status];
    }
    sql := sql + " ORDER BY fq.created_at DESC";
  }

  /** Whatever the selected columns, the clauses after them add one placeholder per parameter. */
  lemma ListQuestionsPlaceholders(base: string, filter: bool)
    ensures Count(base + (if filter then " WHERE fq.status = ?" else "") + " ORDER BY fq.created_at DESC", '?')
      == Count(base, '?') + (if filter then 1 else 0)
  {
    var where := if filter then " WHERE fq.status = ?" else "";
    WhereHasOnePlaceholder();
    OrderByHasNoPlaceholder();
    CountAppend(base, where, '?');
    CountAppend(base + where, " ORDER BY fq.created_at DESC", '?');
  }

  /** One mark after a text without any is counted once. */
  lemma OneMark(p: string, c: char)
    requires c !in p
    ensures Count(p + [c], c) == 1
  {
    CountNone(p, c);
    CountAppend(p, [c], c);
  }

  /** The status filter adds exactly one placeholder. */
  lemma WhereHasOnePlaceholder()
    ensures Count(" WHERE fq.status = ?", '?') == 1
  {
    var p := " WHERE fq.status = ";
    assert '?' !in p;
    OneMark(p, '?');
    assert p + ['?'] == " WHERE fq.status = ?";
  }

  lemma NoMarkInOrderBy()
    ensures '?' !in " ORDER BY fq.created_at DESC"
  {
  }

  /** The ordering adds none. */
  lemma OrderByHasNoPlaceholder()
    ensures Count(" ORDER BY fq.created_at DESC", '?') == 0
  {
    NoMarkInOrderBy();
    CountNone(" ORDER BY fq.created_at DESC", '?');
  }

  /** updateQuestion: the shared partial update on faq_questions; nothing when no field is defined. */
  function UpdateQuestion(db: Db, id: JsValue, fields: Object, err: Option<Error>): (r: (Db, Option<Error>))
    ensures r.1.Some? ==> r.0 == db
    ensures BuildUpdate(fields, id).None? ==> r == (db, None)
  {
    match BuildUpdate(fields, id)
    case None => (db, None)
    case Some(statement) =>
      if err.Some? then (db, err)
      else match Lookup(db.faqs, id)
        case Some(q) =>
          var keys := DefinedKeys(fields, Keys(fields));
          (db.(faqs := db.faqs[q := ApplyAssignments(db.faqs[q], keys, statement.1)]), None)
        case None => (db, None)
  }

  /** The question's defined fields take their values; its other columns and all other questions stay. */
  lemma UpdateQuestionSetsFields(db: Db, q: int, id: JsValue, fields: Object)
    requires q in db.faqs && KeyMatches(id, q) && BuildUpdate(fields, id).Some?
    ensures var (d, e) := UpdateQuestion(db, id, fields, None);
      && e.None? && d.faqs.Keys == db.faqs.Keys
      && (forall c | c in Keys(fields) && Prop(fields, c) != Undefined :: Col(d.faqs[q], c) == Prop(fields, c))
      && (forall c | c !in Keys(fields) || Prop(fields, c) == Undefined :: Col(d.faqs[q], c) == Col(db.faqs[q], c))
      && (forall v | v in db.faqs && v != q :: d.faqs[v] == db.faqs[v])
  {
    assert Lookup(db.faqs, id) == Some(q);
    UpdatedRow(db.faqs[q], fields, id);
  }
}
