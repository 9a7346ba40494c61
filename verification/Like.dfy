/** Substring search through LIKE: escape_like and the filter of queries_with_deadline in src/dashboard/store.rs. */
module Like {
  import opened Prelude
  import opened Units
  import opened Names

  /** str::replace of one character by a string. */
  function Replace(s: string, c: char, with: string): string {
    if s == [] then [] else (if s[0] == c then with else [s[0]]) + Replace(s[1..], c, with)
  }

  /** The three replacements, in the order of the source. */
  function EscapeLike(s: string): string {
    Replace(Replace(Replace(s, '\\', "\\\\"), '%', "\\%"), '_', "\\_")
  }

  predicate Special(c: char) {
    c == '\\' || c == '%' || c == '_'
  }

  /** One pass: a backslash before every special character. */
  function Escaped(s: string): string {
    if s == [] then [] else (if Special(s[0]) then ['\\', s[0]] else [s[0]]) + Escaped(s[1..])
  }

  lemma {:induction false} ReplaceConcat(a: string, b: string, c: char, with: string)
    ensures Replace(a + b, c, with) == Replace(a, c, with) + Replace(b, c, with)
  {
    if a == [] {
      assert a + b == b;
    } else {
      assert (a + b)[1..] == a[1..] + b;
      ReplaceConcat(a[1..], b, c, with);
    }
  }

  lemma ReplaceOne(x: char, c: char, with: string)
    ensures Replace([x], c, with) == if x == c then with else [x]
  {
    assert [x][1..] == [];
  }

  lemma ReplaceTwo(x: char, y: char, c: char, with: string)
    requires x != c
    ensures Replace([x, y], c, with) == [x] + if y == c then with else [y]
  {
    assert [x, y] == [x] + [y];
    ReplaceConcat([x], [y], c, with);
    ReplaceOne(x, c, with);
    ReplaceOne(y, c, with);
  }

  /** Escaping backslashes first makes the three replacements one per-character escape: the
      backslashes added later are never doubled. */
  lemma {:induction false} EscapeIsOnePass(s: string)
    ensures EscapeLike(s) == Escaped(s)
  {
    if s != [] {
      var x, t := s[0], s[1..];
      EscapeIsOnePass(t);
      var r := Replace(t, '\\', "\\\\");
      var head := if x == '\\' then "\\\\" else [x];
      ReplaceConcat(head, r, '%', "\\%");
      var head' := Replace(head, '%', "\\%");
      ReplaceConcat(head', Replace(r, '%', "\\%"), '_', "\\_");
      if x == '\\' {
        ReplaceTwo('\\', '\\', '%', "\\%");
        ReplaceTwo('\\', '\\', '_', "\\_");
      } else {
        ReplaceOne(x, '%', "\\%");
        if x == '%' { ReplaceTwo('\\', '%', '_', "\\_"); } else { ReplaceOne(x, '_', "\\_"); }
      }
    }
  }

  /** SQLite's LIKE with ESCAPE '\': % is any text, _ any character, an escaped character stands for itself.
      Like names, texts are compared with the ASCII letters folded. */
  predicate LikeMatch(p: string, t: string)
    decreases |p| + |t|
  {
    if p == [] then t == []
    else if p[0] == '%' then LikeMatch(p[1..], t) || (t != [] && LikeMatch(p, t[1..]))
    else if p[0] == '\\' then
      |p| > 1 && t != [] && Lower(p[1]) == Lower(t[0]) && LikeMatch(p[2..], t[1..])
    else if t == [] then false
    else (p[0] == '_' || Lower(p[0]) == Lower(t[0])) && LikeMatch(p[1..], t[1..])
  }

  predicate FoldEqual(a: string, b: string) {
    |a| == |b| && forall i :: 0 <= i < |a| ==> Lower(a[i]) == Lower(b[i])
  }

  /** s occurs in t at position i. */
  predicate OccursAt(s: string, t: string, i: nat) {
    i + |s| <= |t| && FoldEqual(t[i..i + |s|], s)
  }

  predicate Contains(t: string, s: string) {
    exists i :: 0 <= i <= |t| && OccursAt(s, t, i)
  }

  lemma {:induction false} PercentMatchesAll(t: string)
    ensures LikeMatch("%", t)
  {
    assert "%"[1..] == [];
    if t != [] { PercentMatchesAll(t[1..]); }
  }

  /** The pattern without its leading % matches exactly the texts that start with s. */
  lemma {:induction false} EscapedMatchesPrefix(s: string, t: string)
    ensures LikeMatch(Escaped(s) + "%", t) <==> OccursAt(s, t, 0)
  {
    var p := Escaped(s) + "%";
    if s == [] {
      assert p == "%";
      PercentMatchesAll(t);
    } else {
      var rest := Escaped(s[1..]) + "%";
      if Special(s[0]) {
        assert p == ['\\', s[0]] + rest;
        assert p[2..] == rest;
      } else {
        assert p == [s[0]] + rest;
        assert p[1..] == rest;
      }
      if t != [] {
        EscapedMatchesPrefix(s[1..], t[1..]);
        PrefixStep(s, t);
      }
    }
  }

  lemma PrefixStep(s: string, t: string)
    requires s != [] && t != []
    ensures OccursAt(s, t, 0) <==> Lower(s[0]) == Lower(t[0]) && OccursAt(s[1..], t[1..], 0)
  {
    if |s| <= |t| {
      var a, b := t[..|s|], t[1..][..|s| - 1];
      assert a == [t[0]] + b && s == [s[0]] + s[1..];
      assert t[0..0 + |s|] == a && t[1..][0..0 + |s[1..]|] == b;
      FoldEqualCons(t[0], b, s[0], s[1..]);
    }
  }

  lemma FoldEqualCons(x: char, a: string, y: char, b: string)
    ensures FoldEqual([x] + a, [y] + b) <==> Lower(x) == Lower(y) && FoldEqual(a, b)
  {
    if FoldEqual([x] + a, [y] + b) {
      assert ([x] + a)[0] == x && ([y] + b)[0] == y;
      forall i | 0 <= i < |a| ensures Lower(a[i]) == Lower(b[i]) {
        assert ([x] + a)[i + 1] == a[i] && ([y] + b)[i + 1] == b[i];
      }
    }
  }

  lemma ContainsStep(s: string, t: string)
    requires t != []
    ensures Contains(t, s) <==> OccursAt(s, t, 0) || Contains(t[1..], s)
  {
    if Contains(t, s) {
      var i :| 0 <= i <= |t| && OccursAt(s, t, i);
      if i > 0 {
        assert t[1..][i - 1..i - 1 + |s|] == t[i..i + |s|];
        assert OccursAt(s, t[1..], i - 1);
      }
    }
    if Contains(t[1..], s) {
      var i :| 0 <= i <= |t[1..]| && OccursAt(s, t[1..], i);
      assert t[i + 1..i + 1 + |s|] == t[1..][i..i + |s|];
      assert OccursAt(s, t, i + 1);
    }
  }

  lemma {:induction false} PatternSearches(s: string, t: string)
    ensures LikeMatch("%" + (Escaped(s) + "%"), t) <==> Contains(t, s)
  {
    var q := Escaped(s) + "%";
    var p := "%" + q;
    assert p[0] == '%' && p[1..] == q;
    EscapedMatchesPrefix(s, t);
    if t == [] {
      if Contains(t, s) {
        var i :| 0 <= i <= |t| && OccursAt(s, t, i);
        assert i == 0;
      }
    } else {
      PatternSearches(s, t[1..]);
      ContainsStep(s, t);
    }
  }

  /** The search is exact: for every search text, whatever wildcards or backslashes it holds, the pattern
      matches precisely the texts that contain it, up to ASCII case. */
  lemma SearchIsExact(search: string, text: string)
    ensures LikeMatch("%" + EscapeLike(search) + "%", text) <==> Contains(text, search)
  {
    EscapeIsOnePass(search);
    PatternSearches(search, text);
    assert "%" + EscapeLike(search) + "%" == "%" + (Escaped(search) + "%");
  }

  // Paging the filtered rows

  datatype Row = Row(id: int, timestamp: int, domain: string, ips: seq<string>)

  const MAX_QUERY_PAGE_SIZE: nat := 200

  datatype Page = PageError | Rows(page: nat, total: nat, rows: seq<Row>)

  /** The WHERE clause: the domain or one of the response addresses matches. */
  predicate Selected(search: string, row: Row) {
    var pattern := "%" + EscapeLike(search) + "%";
    LikeMatch(pattern, row.domain) || exists i :: 0 <= i < |row.ips| && LikeMatch(pattern, row.ips[i])
  }

  /** LIMIT and OFFSET over the filtered rows, already in their ORDER BY order. */
  function QueryPage(filtered: seq<Row>, page: nat, pageSize: nat): Page {
    if !(1 <= pageSize <= MAX_QUERY_PAGE_SIZE) then PageError
    else
      var page := if page < 1 then 1 else page;
      var offset := (page - 1) * pageSize;
      if offset > U64_MAX || offset > I64_MAX then PageError
      else
        Rows(page, |filtered|, Slice(filtered, offset, pageSize))
  }

  function Min(a: nat, b: nat): nat { if a < b then a else b }

  function Slice(rows: seq<Row>, offset: nat, limit: nat): seq<Row> {
    rows[Min(offset, |rows|)..Min(offset + limit, |rows|)]
  }

  /** The rows of pages 1 to n, one after another. */
  function FirstPages(filtered: seq<Row>, n: nat, pageSize: nat): seq<Row> {
    if n == 0 then []
    else
      var p := QueryPage(filtered, n, pageSize);
      FirstPages(filtered, n - 1, pageSize) + if p.Rows? then p.rows else []
  }

  /** Paging neither repeats nor skips: the first n pages are the first n * pageSize rows. */
  lemma {:induction false} PagesPartition(filtered: seq<Row>, n: nat, pageSize: nat)
    requires 1 <= pageSize <= MAX_QUERY_PAGE_SIZE && n * pageSize <= I64_MAX
    ensures FirstPages(filtered, n, pageSize) == filtered[..Min(n * pageSize, |filtered|)]
  {
    if n > 0 {
      var offset := (n - 1) * pageSize;
      assert n * pageSize == offset + pageSize;
      PagesPartition(filtered, n - 1, pageSize);
      NextSlice(filtered, offset, pageSize);
    }
  }

  lemma NextSlice(rows: seq<Row>, offset: nat, limit: nat)
    ensures rows[..Min(offset, |rows|)] + Slice(rows, offset, limit) == rows[..Min(offset + limit, |rows|)]
  {
  }

  /** A row is listed for a search exactly when its domain or an address contains the text. */
  lemma SelectedIsContainment(search: string, row: Row)
    ensures Selected(search, row) <==>
              Contains(row.domain, search) || exists i :: 0 <= i < |row.ips| && Contains(row.ips[i], search)
  {
    SearchIsExact(search, row.domain);
    forall i | 0 <= i < |row.ips|
      ensures LikeMatch("%" + EscapeLike(search) + "%", row.ips[i]) <==> Contains(row.ips[i], search)
    {
      SearchIsExact(search, row.ips[i]);
    }
  }

  /** A page request: refused exactly for a size outside 1 to 200 or an offset outside i64; otherwise it reports the
      page number (at least 1), the total, and the rows from (page - 1) * size on, at most `size` of them. */
  lemma PageMeans(filtered: seq<Row>, page: nat, pageSize: nat)
    ensures var p := if page == 0 then 1 else page;
            var r := QueryPage(filtered, page, pageSize);
            && (r.PageError? <==> pageSize < 1 || pageSize > 200 || (p - 1) * pageSize > I64_MAX)
            && (r.Rows? ==>
                  && r.page == p && r.total == |filtered| && |r.rows| <= pageSize
                  && (|r.rows| < pageSize ==> (p - 1) * pageSize + |r.rows| >= |filtered|)
                  && forall i :: 0 <= i < |r.rows| ==>
                       (p - 1) * pageSize + i < |filtered| && r.rows[i] == filtered[(p - 1) * pageSize + i])
  {
    var p := if page == 0 then 1 else page;
    if 1 <= pageSize <= 200 { SliceMeans(filtered, (p - 1) * pageSize, pageSize); }
  }

  lemma SliceMeans(rows: seq<Row>, offset: nat, limit: nat)
    ensures var r := Slice(rows, offset, limit);
            && |r| <= limit && (|r| < limit ==> offset + |r| >= |rows|)
            && forall i :: 0 <= i < |r| ==> offset + i < |rows| && r[i] == rows[offset + i]
  {
  }

  // The listing the pages are cut from

  /** ORDER BY timestamp_ms DESC, id DESC. */
  predicate Before(a: Row, b: Row) {
    a.timestamp > b.timestamp || (a.timestamp == b.timestamp && a.id > b.id)
  }

  /** Without a search text every row is listed; with one, those whose domain or an address contains it. */
  predicate Wanted(search: Option<string>, row: Row) {
    search.Some? ==> Contains(row.domain, search.value)
                     || exists i :: 0 <= i < |row.ips| && Contains(row.ips[i], search.value)
  }

  /** The rows of the table the statement selects, in its order. */
  ghost predicate Listing(table: set<Row>, search: Option<string>, rows: seq<Row>) {
    && (forall row :: row in rows <==> row in table && (search.Some? ==> Selected(search.value, row)))
    && (forall i, j :: 0 <= i < j < |rows| ==> Before(rows[i], rows[j]))
  }

  /** id is the primary key. */
  ghost predicate Keyed(table: set<Row>) {
    forall a, b :: a in table && b in table && a.id == b.id ==> a == b
  }

  lemma {:induction false} Newest(table: set<Row>) returns (row: Row)
    requires |table| > 0 && Keyed(table)
    ensures row in table && forall x :: x in table && x != row ==> Before(row, x)
    decreases |table|
  {
    var some := SomeElement(table);
    var rest := table - {some};
    assert table == rest + {some};
    if |rest| == 0 {
      row := some;
    } else {
      var top := Newest(rest);
      row := if Before(some, top) then some else top;
    }
  }

  /** Such a listing always exists. */
  lemma {:induction false} ListingExists(table: set<Row>, search: Option<string>) returns (rows: seq<Row>)
    requires Keyed(table)
    ensures Listing(table, search, rows)
    decreases |table|
  {
    if |table| == 0 {
      rows := [];
    } else {
      var top := Newest(table);
      var rest := ListingExists(table - {top}, search);
      rows := (if search.Some? && !Selected(search.value, top) then [] else [top]) + rest;
    }
  }

  /** Paging through a search: page after page, newest first and without repetition or gap, come the rows that
      contain the text; and once the pages reach the total they have shown all of them. */
  lemma SearchPages(table: set<Row>, search: Option<string>, rows: seq<Row>, n: nat, pageSize: nat)
    requires Listing(table, search, rows)
    requires 1 <= pageSize <= MAX_QUERY_PAGE_SIZE && n * pageSize <= I64_MAX
    ensures var shown := FirstPages(rows, n, pageSize);
            && |shown| == Min(n * pageSize, |rows|)
            && (forall i, j :: 0 <= i < j < |shown| ==> Before(shown[i], shown[j]))
            && (forall row :: row in shown ==> row in table && Wanted(search, row))
            && (forall row :: row in table && Wanted(search, row) && row !in shown ==>
                  n * pageSize < |rows| && forall x :: x in shown ==> Before(x, row))
  {
    PagesPartition(rows, n, pageSize);
    var shown := FirstPages(rows, n, pageSize);
    forall row ensures row in rows <==> row in table && Wanted(search, row) {
      if search.Some? { SelectedIsContainment(search.value, row); }
    }
    forall row | row in table && Wanted(search, row) && row !in shown
      ensures n * pageSize < |rows| && forall x :: x in shown ==> Before(x, row)
    {
      var i :| 0 <= i < |rows| && rows[i] == row;
      assert forall j :: 0 <= j < |shown| ==> shown[j] == rows[j];
    }
  }
}
