/**
  The package's own test cases, stated about the model: the paginator table,
  the four page-URL cases and the sliding-window cases.
*/
module Examples {
  import opened Wrappers
  import opened Text
  import opened Decimal
  import opened Query
  import opened Paging
  import opened PageUrl
  import opened PageView

  lemma PaginatorExamples()
    ensures NewPaginator(100, 5, 10) == Pagination(10, 5, 100, 10, 40, 10, true, true, 4, 6)
    ensures NewPaginator(23, 1, 5) == Pagination(5, 1, 23, 5, 0, 5, false, true, 0, 2)
    ensures NewPaginator(23, 5, 5) == Pagination(5, 5, 23, 5, 20, 3, true, false, 4, 0)
    ensures NewPaginator(12, 99, 5) == Pagination(5, 3, 12, 3, 10, 2, true, false, 2, 0)
    ensures NewPaginator(12, 0, 5) == Pagination(5, 1, 12, 3, 0, 5, false, true, 0, 2)
    ensures NewPaginator(25, 1, 0) == Pagination(10, 1, 25, 3, 0, 10, false, true, 0, 2)
    ensures NewPaginator(0, 5, 10) == Pagination(10, 1, 0, 1, 0, 0, false, false, 0, 0)
  {
  }

  lemma WindowExamples()
    ensures WindowBounds(5, 10, 0) == (1, 10)
    ensures WindowBounds(1, 10, 5) == (1, 5)
    ensures WindowBounds(6, 10, 5) == (4, 8)
    ensures WindowBounds(10, 10, 5) == (6, 10)
    ensures WindowBounds(1, 1, 5) == (1, 1)
  {
  }

  /**
    current -3 and total 0 both normalise to 1: a single active page and no
    neighbour links, so the next link is "" as well.
  */
  lemma ClampedViewExample(link: int -> string)
    ensures ViewOf(link, -3, 0, 5) == View(1, 1, "", "", [PageItem(1, link(1), true)])
  {
    ItemsAt(link, 1, 1, 1);
  }

  lemma JoinTwo(a: string, b: string)
    ensures Join([a, b], '&') == a + "&" + b
  {
    assert [a, b][1..] == [b];
  }

  lemma JoinThree(a: string, b: string, c: string)
    ensures Join([a, b, c], '&') == a + "&" + (b + "&" + c)
  {
    assert [a, b, c][1..] == [b, c];
    JoinTwo(b, c);
  }

  /** Two fields, no escaping needed. */
  lemma EncodeTwo(q: map<string, string>, k1: string, k2: string)
    requires q.Keys == {k1, k2} && Less(k1, k2)
    requires AllUnreserved(k1) && AllUnreserved(k2) && AllUnreserved(q[k1]) && AllUnreserved(q[k2])
    ensures Encode(q) == k1 + "=" + q[k1] + "&" + (k2 + "=" + q[k2])
  {
    LessIrreflexive(k1);
    EncodePlain(q, [k1, k2]);
    assert PlainFields(q, [k1, k2]) == [k1 + "=" + q[k1], k2 + "=" + q[k2]];
    JoinTwo(k1 + "=" + q[k1], k2 + "=" + q[k2]);
  }

  /** Three fields, no escaping needed. */
  lemma EncodeThree(q: map<string, string>, k1: string, k2: string, k3: string)
    requires q.Keys == {k1, k2, k3} && Less(k1, k2) && Less(k2, k3)
    requires AllUnreserved(k1) && AllUnreserved(k2) && AllUnreserved(k3)
    requires AllUnreserved(q[k1]) && AllUnreserved(q[k2]) && AllUnreserved(q[k3])
    ensures Encode(q) == k1 + "=" + q[k1] + "&" + (k2 + "=" + q[k2] + "&" + (k3 + "=" + q[k3]))
  {
    LessTransitive(k1, k2, k3);
    LessIrreflexive(k1);
    LessIrreflexive(k2);
    EncodePlain(q, [k1, k2, k3]);
    assert PlainFields(q, [k1, k2, k3]) == [k1 + "=" + q[k1], k2 + "=" + q[k2], k3 + "=" + q[k3]];
    JoinThree(k1 + "=" + q[k1], k2 + "=" + q[k2], k3 + "=" + q[k3]);
  }

  lemma SpellRelative()
    ensures "/api/items" + "?" + ("limit" + "=" + "20" + "&" + ("page" + "=" + "3" + "&" + ("q" + "=" + "test")))
      == "/api/items?limit=20&page=3&q=test"
  {
    assert "/api/items" + "?" == "/api/items?";
    assert "limit" + "=" + "20" == "limit=20";
    assert "page" + "=" + "3" == "page=3";
    assert "q" + "=" + "test" == "q=test";
    assert "page=3" + "&" + "q=test" == "page=3&q=test";
    assert "limit=20" + "&" + "page=3&q=test" == "limit=20&page=3&q=test";
    assert "/api/items?" + "limit=20&page=3&q=test" == "/api/items?limit=20&page=3&q=test";
  }

  lemma RelativeKeepQueryExample()
    ensures PageURL(
      Request("/api/items", map["q" := ["test"], "limit" := ["20"], "page" := ["5"]], "", "", false, "localhost"),
      3, None) == "/api/items?limit=20&page=3&q=test"
  {
    var r := Request("/api/items", map["q" := ["test"], "limit" := ["20"], "page" := ["5"]], "", "", false, "localhost");
    var o := EffectiveOptions(r, None);
    assert o == BuildOptions(Relative, "/api/items", "page", "", "", true);
    var q := PageQuery(r, o, 3);
    assert Itoa(3) == "3";
    assert q == map["limit" := "20", "page" := "3", "q" := "test"];
    EncodeThree(q, "limit", "page", "q");
    SpellRelative();
  }

  lemma SpellForwarded()
    ensures "https" + "://" + "api.example.com" + "/api/items" + "?" + ("page" + "=" + "2" + "&" + ("q" + "=" + "test"))
      == "https://api.example.com/api/items?page=2&q=test"
  {
    assert "https" + "://" == "https://";
    assert "https://" + "api.example.com" == "https://api.example.com";
    assert "https://api.example.com" + "/api/items" == "https://api.example.com/api/items";
    assert "https://api.example.com/api/items" + "?" == "https://api.example.com/api/items?";
    assert "page" + "=" + "2" == "page=2";
    assert "q" + "=" + "test" == "q=test";
    assert "page=2" + "&" + "q=test" == "page=2&q=test";
    assert "https://api.example.com/api/items?" + "page=2&q=test" == "https://api.example.com/api/items?page=2&q=test";
  }

  lemma SpellTls()
    ensures "https" + "://" + "secure.com" + "/data" + "?" + ("page" + "=" + "1" + "&" + ("x" + "=" + "1"))
      == "https://secure.com/data?page=1&x=1"
  {
    assert "https" + "://" == "https://";
    assert "https://" + "secure.com" == "https://secure.com";
    assert "https://secure.com" + "/data" == "https://secure.com/data";
    assert "https://secure.com/data" + "?" == "https://secure.com/data?";
    assert "page" + "=" + "1" == "page=1";
    assert "x" + "=" + "1" == "x=1";
    assert "page=1" + "&" + "x=1" == "page=1&x=1";
    assert "https://secure.com/data?" + "page=1&x=1" == "https://secure.com/data?page=1&x=1";
  }

  lemma SpellOverrides()
    ensures "https" + "://" + "override.example" + "/custom" + "?" + ("a" + "=" + "1" + "&" + ("pg" + "=" + "7"))
      == "https://override.example/custom?a=1&pg=7"
  {
    assert "https" + "://" == "https://";
    assert "https://" + "override.example" == "https://override.example";
    assert "https://override.example" + "/custom" == "https://override.example/custom";
    assert "https://override.example/custom" + "?" == "https://override.example/custom?";
    assert "a" + "=" + "1" == "a=1";
    assert "pg" + "=" + "7" == "pg=7";
    assert "a=1" + "&" + "pg=7" == "a=1&pg=7";
    assert "https://override.example/custom?" + "a=1&pg=7" == "https://override.example/custom?a=1&pg=7";
  }

  lemma AbsoluteForwardedExample()
    ensures PageURL(
      Request("/api/items", map["q" := ["test"]], "https", "api.example.com", false, "local"),
      2, Some(ZeroOptions.(mode := Absolute))) == "https://api.example.com/api/items?page=2&q=test"
  {
    var r := Request("/api/items", map["q" := ["test"]], "https", "api.example.com", false, "local");
    var o := EffectiveOptions(r, Some(ZeroOptions.(mode := Absolute)));
    assert ForwardedProto(r) == "https";
    assert o == BuildOptions(Absolute, "/api/items", "page", "https", "api.example.com", true);
    var q := PageQuery(r, o, 2);
    assert Itoa(2) == "2";
    assert q == map["page" := "2", "q" := "test"];
    EncodeTwo(q, "page", "q");
    SpellForwarded();
  }

  lemma AbsoluteTlsExample()
    ensures PageURL(
      Request("/data", map["x" := ["1"]], "", "", true, "secure.com"),
      1, Some(ZeroOptions.(mode := Absolute))) == "https://secure.com/data?page=1&x=1"
  {
    var r := Request("/data", map["x" := ["1"]], "", "", true, "secure.com");
    var o := EffectiveOptions(r, Some(ZeroOptions.(mode := Absolute)));
    assert o == BuildOptions(Absolute, "/data", "page", "https", "secure.com", true);
    var q := PageQuery(r, o, 1);
    assert Itoa(1) == "1";
    assert q == map["page" := "1", "x" := "1"];
    EncodeTwo(q, "page", "x");
    SpellTls();
  }

  lemma AbsoluteOverridesExample()
    ensures PageURL(
      Request("/path", map["a" := ["1"]], "", "", false, "local"),
      7, Some(BuildOptions(Absolute, "/custom", "pg", "https", "override.example", true)))
      == "https://override.example/custom?a=1&pg=7"
  {
    var r := Request("/path", map["a" := ["1"]], "", "", false, "local");
    var o := EffectiveOptions(r, Some(BuildOptions(Absolute, "/custom", "pg", "https", "override.example", true)));
    var q := PageQuery(r, o, 7);
    assert Itoa(7) == "7";
    assert q == map["a" := "1", "pg" := "7"];
    EncodeTwo(q, "a", "pg");
    SpellOverrides();
  }
}
