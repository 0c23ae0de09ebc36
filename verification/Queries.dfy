/**
  The searches and counts of executions. Each is written as its own query, as in
  the repository; a date is a text that may or may not parse.
 */
module Queries {
  import opened Wrappers
  import opened Executions

  /** Twenty-four hours, in nanoseconds. */
  const DAY: int := 86_400_000_000_000

  datatype Filters = Filters(status: string, userId: nat, taskId: nat, dateFrom: string, dateTo: string)

  type DateParser = string -> Option<Time>

  predicate AfterFrom(row: Execution, filters: Filters, parse: DateParser) {
    filters.dateFrom != "" && parse(filters.dateFrom).Some? ==> row.createdAt >= parse(filters.dateFrom).value
  }

  predicate BeforeTo(row: Execution, filters: Filters, parse: DateParser) {
    filters.dateTo != "" && parse(filters.dateTo).Some? ==> row.createdAt <= parse(filters.dateTo).value + DAY
  }

  // ---------------------------------------------------------------- the queries

  type Condition = Execution -> bool

  function SearchCondition(filters: Filters, parse: DateParser): Condition {
    (row: Execution) =>
      && (filters.status != "" ==> row.status.Text() == filters.status)
      && (filters.userId > 0 ==> row.userId == filters.userId)
      && (filters.taskId > 0 ==> row.taskId == filters.taskId)
      && AfterFrom(row, filters, parse)
      && BeforeTo(row, filters, parse)
  }

  function SearchExecutions(table: Table, filters: Filters, parse: DateParser, limit: int, offset: int)
    : seq<Execution>
  {
    Page(Select(table, SearchCondition(filters, parse)), limit, offset)
  }

  /** The user of the filters is ignored. */
  function UserSearchCondition(userId: nat, filters: Filters, parse: DateParser): Condition {
    (row: Execution) =>
      && row.userId == userId
      && (filters.status != "" ==> row.status.Text() == filters.status)
      && (filters.taskId > 0 ==> row.taskId == filters.taskId)
      && AfterFrom(row, filters, parse)
      && BeforeTo(row, filters, parse)
  }

  function SearchExecutionsForUser(table: Table, userId: nat, filters: Filters, parse: DateParser, limit: int,
                                   offset: int)
    : seq<Execution>
  {
    Page(Select(table, UserSearchCondition(userId, filters, parse)), limit, offset)
  }

  /** The user and the task of the filters are ignored. */
  function UserTaskSearchCondition(userId: nat, taskId: nat, filters: Filters, parse: DateParser): Condition {
    (row: Execution) =>
      && row.userId == userId && row.taskId == taskId
      && (filters.status != "" ==> row.status.Text() == filters.status)
      && AfterFrom(row, filters, parse)
      && BeforeTo(row, filters, parse)
  }

  function SearchExecutionsForUserByTask(table: Table, userId: nat, taskId: nat, filters: Filters, parse: DateParser,
                                         limit: int, offset: int): seq<Execution> {
    Page(Select(table, UserTaskSearchCondition(userId, taskId, filters, parse)), limit, offset)
  }

  /** The number of rows that satisfy a condition. */
  function Count(table: Table, keep: Condition): nat {
    if table == [] then 0 else (if keep(table[0]) then 1 else 0) + Count(table[1..], keep)
  }

  function CountCondition(filters: Filters, parse: DateParser): Condition {
    (row: Execution) =>
      && (filters.status != "" ==> row.status.Text() == filters.status)
      && (filters.userId > 0 ==> row.userId == filters.userId)
      && (filters.taskId > 0 ==> row.taskId == filters.taskId)
      && AfterFrom(row, filters, parse)
      && BeforeTo(row, filters, parse)
  }

  function CountExecutions(table: Table, filters: Filters, parse: DateParser): nat {
    Count(table, CountCondition(filters, parse))
  }

  function UserCountCondition(userId: nat, filters: Filters, parse: DateParser): Condition {
    (row: Execution) =>
      && row.userId == userId
      && (filters.status != "" ==> row.status.Text() == filters.status)
      && (filters.taskId > 0 ==> row.taskId == filters.taskId)
      && AfterFrom(row, filters, parse)
      && BeforeTo(row, filters, parse)
  }

  function CountExecutionsForUser(table: Table, userId: nat, filters: Filters, parse: DateParser): nat {
    Count(table, UserCountCondition(userId, filters, parse))
  }

  // ---------------------------------------------------------------- what they find

  /** A row was created on or after a date, if the text is one. */
  ghost predicate NotBefore(row: Execution, date: string, parse: DateParser) {
    date == "" || parse(date) == None || row.createdAt >= parse(date).value
  }

  /** A row was created at most a day after the start of a date, if the text is one. */
  ghost predicate NotAfter(row: Execution, date: string, parse: DateParser) {
    date == "" || parse(date) == None || row.createdAt <= parse(date).value + 86_400_000_000_000
  }

  /** Without limit, exactly the matching rows are found; an empty status, and user or task zero, match all. */
  lemma SearchFinds(table: Table, filters: Filters, parse: DateParser, row: Execution)
    ensures row in SearchExecutions(table, filters, parse, 0, 0) <==>
      && row in table
      && (filters.status == "" || row.status.Text() == filters.status)
      && (filters.userId == 0 || row.userId == filters.userId)
      && (filters.taskId == 0 || row.taskId == filters.taskId)
      && NotBefore(row, filters.dateFrom, parse) && NotAfter(row, filters.dateTo, parse)
  {
  }

  /** For a user, the rows of that very user. */
  lemma UserSearchFinds(table: Table, userId: nat, filters: Filters, parse: DateParser, row: Execution)
    ensures row in SearchExecutionsForUser(table, userId, filters, parse, 0, 0) <==>
      && row in table && row.userId == userId
      && (filters.status == "" || row.status.Text() == filters.status)
      && (filters.taskId == 0 || row.taskId == filters.taskId)
      && NotBefore(row, filters.dateFrom, parse) && NotAfter(row, filters.dateTo, parse)
  {
  }

  /** For a user and a task, the rows of both. */
  lemma UserTaskSearchFinds(table: Table, userId: nat, taskId: nat, filters: Filters, parse: DateParser, row: Execution)
    ensures row in SearchExecutionsForUserByTask(table, userId, taskId, filters, parse, 0, 0) <==>
      && row in table && row.userId == userId && row.taskId == taskId
      && (filters.status == "" || row.status.Text() == filters.status)
      && NotBefore(row, filters.dateFrom, parse) && NotAfter(row, filters.dateTo, parse)
  {
  }

  // ---------------------------------------------------------------- how they agree

  lemma {:induction false} SelectAgrees(table: Table, keep: Condition, keep': Condition)
    requires forall row :: keep(row) == keep'(row)
    ensures Select(table, keep) == Select(table, keep')
  {
    if table != [] {
      SelectAgrees(table[..|table| - 1], keep, keep');
    }
  }

  lemma {:induction false} CountConcat(table: Table, table': Table, keep: Condition)
    ensures Count(table + table', keep) == Count(table, keep) + Count(table', keep)
  {
    if table == [] {
      assert table + table' == table';
    } else {
      assert (table + table')[1..] == table[1..] + table';
      CountConcat(table[1..], table', keep);
    }
  }

  lemma {:induction false} CountIsLength(table: Table, keep: Condition, keep': Condition)
    requires forall row :: keep(row) == keep'(row)
    ensures Count(table, keep) == |Select(table, keep')|
  {
    if table != [] {
      var last := |table| - 1;
      assert table == table[..last] + [table[last]];
      CountConcat(table[..last], [table[last]], keep);
      assert [table[last]][1..] == [];
      CountIsLength(table[..last], keep, keep');
    }
  }

  /** A count is the length of the unpaged search with the same filters. */
  lemma CountsAgree(table: Table, userId: nat, filters: Filters, parse: DateParser)
    ensures CountExecutions(table, filters, parse) == |SearchExecutions(table, filters, parse, 0, 0)|
    ensures CountExecutionsForUser(table, userId, filters, parse)
         == |SearchExecutionsForUser(table, userId, filters, parse, 0, 0)|
  {
    CountIsLength(table, CountCondition(filters, parse), SearchCondition(filters, parse));
    CountIsLength(table, UserCountCondition(userId, filters, parse), UserSearchCondition(userId, filters, parse));
  }

  /** A search for a user is the general search with that user, provided the user's identifier is positive. */
  lemma UserSearchAgrees(table: Table, userId: nat, filters: Filters, parse: DateParser, limit: int, offset: int)
    requires userId > 0
    ensures SearchExecutionsForUser(table, userId, filters, parse, limit, offset)
         == SearchExecutions(table, filters.(userId := userId), parse, limit, offset)
    ensures CountExecutionsForUser(table, userId, filters, parse)
         == CountExecutions(table, filters.(userId := userId), parse)
  {
    SelectAgrees(table, UserSearchCondition(userId, filters, parse),
                 SearchCondition(filters.(userId := userId), parse));
    CountsAgree(table, userId, filters, parse);
    CountsAgree(table, userId, filters.(userId := userId), parse);
  }

  lemma UserTaskSearchAgrees(table: Table, userId: nat, taskId: nat, filters: Filters, parse: DateParser, limit: int,
                             offset: int)
    requires userId > 0 && taskId > 0
    ensures SearchExecutionsForUserByTask(table, userId, taskId, filters, parse, limit, offset)
         == SearchExecutions(table, filters.(userId := userId, taskId := taskId), parse, limit, offset)
  {
    SelectAgrees(table, UserTaskSearchCondition(userId, taskId, filters, parse),
                 SearchCondition(filters.(userId := userId, taskId := taskId), parse));
  }

  /** With identifier zero the two agree exactly when no row of anybody else matches. */
  lemma UserZeroAgreesIff(table: Table, filters: Filters, parse: DateParser)
    ensures SearchExecutionsForUser(table, 0, filters, parse, 0, 0)
         == SearchExecutions(table, filters.(userId := 0), parse, 0, 0)
       <==> forall row :: row in table && SearchCondition(filters.(userId := 0), parse)(row) ==> row.userId == 0
  {
    var user, any := UserSearchCondition(0, filters, parse), SearchCondition(filters.(userId := 0), parse);
    assert forall row :: user(row) <==> any(row) && row.userId == 0;
    if forall row :: row in table && any(row) ==> row.userId == 0 {
      SelectAgreesOn(table, user, any);
    }
  }

  lemma {:induction false} SelectAgreesOn(table: Table, keep: Condition, keep': Condition)
    requires forall row :: row in table ==> keep(row) == keep'(row)
    ensures Select(table, keep) == Select(table, keep')
  {
    if table != [] {
      SelectAgreesOn(table[..|table| - 1], keep, keep');
      assert table[|table| - 1] in table;
    }
  }

  ghost predicate NewestFirst(rows: seq<Execution>) {
    forall i, j :: 0 <= i < j < |rows| ==> rows[i].createdAt > rows[j].createdAt
  }

  /** A search lists the matching rows newest first, hence each once. */
  lemma {:induction false} SearchIsNewestFirst(table: Table, keep: Condition)
    requires WellFormed(table)
    ensures NewestFirst(Select(table, keep))
  {
    if table != [] {
      var older := Select(table[..|table| - 1], keep);
      SearchIsNewestFirst(table[..|table| - 1], keep);
      forall i | 0 <= i < |older|
        ensures older[i].createdAt < table[|table| - 1].createdAt
      {
        OlderRow(table, keep, older[i]);
      }
      Prepended(table[|table| - 1], older);
    }
  }

  lemma Prepended(row: Execution, older: seq<Execution>)
    requires NewestFirst(older)
    requires forall i :: 0 <= i < |older| ==> older[i].createdAt < row.createdAt
    ensures NewestFirst([row] + older)
  {
  }

  lemma OlderRow(table: Table, keep: Condition, row: Execution)
    requires WellFormed(table) && table != []
    requires row in Select(table[..|table| - 1], keep)
    ensures row.createdAt < table[|table| - 1].createdAt
  {
    var i :| 0 <= i < |table| - 1 && table[..|table| - 1][i] == row;
  }

  // ---------------------------------------------------------------- pages

  /** The pages at offsets 0, k, 2k, ..., one after another. */
  function Pages<T>(rows: seq<T>, k: nat, n: nat): seq<T> {
    if n == 0 then [] else Pages(rows, k, n - 1) + Page(rows, k, (n - 1) * k)
  }

  /** The first rows of a list: all of them if there are not enough. */
  function Take<T>(rows: seq<T>, n: nat): seq<T> {
    if n <= |rows| then rows[..n] else rows
  }

  lemma NextPage<T>(rows: seq<T>, k: nat, offset: nat)
    requires k > 0
    ensures Take(rows, offset) + Page(rows, k, offset) == Take(rows, offset + k)
  {
  }

  lemma {:induction false} FirstPages<T>(rows: seq<T>, k: nat, n: nat)
    requires k > 0
    ensures Pages(rows, k, n) == Take(rows, n * k)
  {
    if n > 0 {
      FirstPages(rows, k, n - 1);
      NextPage(rows, k, (n - 1) * k);
      assert (n - 1) * k + k == n * k;
    }
  }

  /** The pages of a list, one after another, once there are enough of them. */
  lemma PagesCover<T>(rows: seq<T>, k: nat, n: nat)
    requires k > 0 && n * k >= |rows|
    ensures Pages(rows, k, n) == rows
  {
    FirstPages(rows, k, n);
    assert n * k == |rows| ==> rows[..n * k] == rows;
  }

  /** The results of a search at offsets 0, k, 2k, ..., one after another. */
  function Searched(search: (int, int) -> seq<Execution>, k: nat, n: nat): seq<Execution> {
    if n == 0 then [] else Searched(search, k, n - 1) + search(k, (n - 1) * k)
  }

  lemma {:induction false} SearchedIsPages(search: (int, int) -> seq<Execution>, rows: seq<Execution>, k: nat, n: nat)
    requires forall limit, offset :: search(limit, offset) == Page(rows, limit, offset)
    ensures Searched(search, k, n) == Pages(rows, k, n)
  {
    if n > 0 {
      SearchedIsPages(search, rows, k, n - 1);
    }
  }

  lemma PagesCoverSelection(rows: seq<Execution>, search: (int, int) -> seq<Execution>, k: nat, n: nat)
    requires k > 0 && n * k >= |rows|
    requires forall limit, offset :: search(limit, offset) == Page(rows, limit, offset)
    ensures Searched(search, k, n) == rows
  {
    SearchedIsPages(search, rows, k, n);
    PagesCover(rows, k, n);
  }

  /**
    For every page size, enough pages of the general search, one after another, hold
    the unpaged search, in order, without loss or repeat.
   */
  lemma PagesCoverSearch(table: Table, filters: Filters, parse: DateParser, k: nat, n: nat)
    requires k > 0 && n * k >= |SearchExecutions(table, filters, parse, 0, 0)|
    ensures Searched((limit, offset) => SearchExecutions(table, filters, parse, limit, offset), k, n)
         == SearchExecutions(table, filters, parse, 0, 0)
  {
    PagesCoverSelection(SearchExecutions(table, filters, parse, 0, 0),
                        (limit, offset) => SearchExecutions(table, filters, parse, limit, offset), k, n);
  }

  lemma PagesCoverUserSearch(table: Table, userId: nat, filters: Filters, parse: DateParser, k: nat, n: nat)
    requires k > 0 && n * k >= |SearchExecutionsForUser(table, userId, filters, parse, 0, 0)|
    ensures Searched((limit, offset) => SearchExecutionsForUser(table, userId, filters, parse, limit, offset), k, n)
         == SearchExecutionsForUser(table, userId, filters, parse, 0, 0)
  {
    PagesCoverSelection(SearchExecutionsForUser(table, userId, filters, parse, 0, 0),
                        (limit, offset) => SearchExecutionsForUser(table, userId, filters, parse, limit, offset), k, n);
  }

  lemma PagesCoverUserTaskSearch(table: Table, userId: nat, taskId: nat, filters: Filters, parse: DateParser, k: nat,
                                 n: nat)
    requires k > 0 && n * k >= |SearchExecutionsForUserByTask(table, userId, taskId, filters, parse, 0, 0)|
    ensures Searched((limit, offset) =>
                       SearchExecutionsForUserByTask(table, userId, taskId, filters, parse, limit, offset), k, n)
         == SearchExecutionsForUserByTask(table, userId, taskId, filters, parse, 0, 0)
  {
    PagesCoverSelection(SearchExecutionsForUserByTask(table, userId, taskId, filters, parse, 0, 0),
                        (limit, offset) =>
                          SearchExecutionsForUserByTask(table, userId, taskId, filters, parse, limit, offset), k, n);
  }
}
