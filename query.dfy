/** The query-string side of `list_products`: which one of the three
    parameters decides the search, how a category name and an availability
    flag are read, and which products a search selects. */
module Query {
  import opened Wrappers
  import opened Text
  import opened Http
  import opened Products

  /** The three query parameters; None when the parameter is absent. */
  datatype Params = Params(name: Option<string>, category: Option<string>, available: Option<string>)

  /** Python truthiness of `request.args.get(...)`: absent and empty both
      count as not given. */
  predicate Given(v: Option<string>)
  {
    v.Some? && v.value != ""
  }

  /** The availability flag is true exactly when the lower-cased parameter
      is "true", "1" or "t"; any other text is false, never an error. */
  function ParseAvailable(s: string): bool
  {
    Lower(s) in ["true", "1", "t"]
  }

  /** The one search `list_products` runs. */
  datatype Filter = ByName(name: string) | ByCategory(category: Category) | ByAvailability(available: bool) | All

  /** The if/elif chain of `list_products`: name first, then category, then
      availability, otherwise everything. An unknown category is a 400. */
  function ChooseFilter(q: Params): Result<Filter, int>
  {
    if Given(q.name) then
      Success(ByName(q.name.value))
    else if Given(q.category) then
      match CategoryNamed(Upper(q.category.value))
      case Some(c) => Success(ByCategory(c))
      case None => Failure(StatusBadRequest)
    else if Given(q.available) then
      Success(ByAvailability(ParseAvailable(q.available.value)))
    else
      Success(All)
  }

  /** The exact-equality test behind `find_by_name`, `find_by_category`,
      `find_by_availability` and `all`. */
  predicate Matches(f: Filter, p: Product)
  {
    match f
    case ByName(n) => p.name == n
    case ByCategory(c) => p.category == c
    case ByAvailability(a) => p.available == a
    case All => true
  }

  /** The rows a finder returns from the product table. */
  function Select(table: map<int, Product>, f: Filter): set<Product>
  {
    set k | k in table && Matches(f, table[k]) :: table[k]
  }

  /** The keys whose records a finder selects. */
  function MatchingKeys(table: map<int, Product>, f: Filter): set<int>
  {
    set k | k in table && Matches(f, table[k])
  }

  /** When every record carries its key as id, each selected record is the
      matching row stored under its own id. */
  lemma SelectedRow(table: map<int, Product>, f: Filter, p: Product)
    requires forall j :: j in table ==> table[j].id == j
    requires p in Select(table, f)
    ensures p.id in table && table[p.id] == p && Matches(f, p)
  {
    var j :| j in table && Matches(f, table[j]) && table[j] == p;
  }

  /** Every selected record's id is one of the matching keys. */
  lemma SelectedKeys(table: map<int, Product>, f: Filter)
    requires forall j :: j in table ==> table[j].id == j
    ensures forall p :: p in Select(table, f) ==> p.id in MatchingKeys(table, f)
  {
    forall p | p in Select(table, f) ensures p.id in MatchingKeys(table, f) {
      SelectedRow(table, f, p);
    }
  }

  /** Taking one row out of the table takes its record, and only it, out of
      a finder's result. */
  lemma SelectWithout(table: map<int, Product>, f: Filter, k: int)
    requires forall j :: j in table ==> table[j].id == j
    requires k in table
    ensures table[k] !in Select(table - {k}, f)
    ensures Select(table, f) ==
      Select(table - {k}, f) + (if Matches(f, table[k]) then {table[k]} else {})
  {
    var rest := table - {k};
    if table[k] in Select(rest, f) {
      SelectedRow(rest, f, table[k]);
    }
    forall x | x in Select(table, f) && x != table[k]
      ensures x in Select(rest, f)
    {
      SelectedRow(table, f, x);
      assert rest[x.id] == x;
    }
  }

  /** Taking one row out of the table takes its key, and only it, out of
      the matching keys. */
  lemma MatchingKeysWithout(table: map<int, Product>, f: Filter, k: int)
    requires k in table
    ensures k !in MatchingKeys(table - {k}, f)
    ensures MatchingKeys(table, f) ==
      MatchingKeys(table - {k}, f) + (if Matches(f, table[k]) then {k} else {})
  {
  }

  /** When every record carries its key as id, a finder returns one record
      per matching key: no two matching rows collapse into one. */
  lemma {:induction false} SelectCount(table: map<int, Product>, f: Filter)
    requires forall k :: k in table ==> table[k].id == k
    ensures |Select(table, f)| == |MatchingKeys(table, f)|
    decreases table.Keys
  {
    if k :| k in table {
      var rest := table - {k};
      assert rest.Keys < table.Keys;
      SelectCount(rest, f);
      SelectWithout(table, f, k);
      MatchingKeysWithout(table, f, k);
    } else {
      assert forall j :: j !in MatchingKeys(table, f);
      assert MatchingKeys(table, f) <= {};
      SelectedKeys(table, f);
      assert forall p :: p !in Select(table, f);
      assert Select(table, f) <= {};
    }
  }

  /** The request asks for a category that no member is named after. */
  predicate CategoryRejected(q: Params)
  {
    !Given(q.name) && Given(q.category) &&
    forall c :: NameOf(c) != Upper(q.category.value)
  }

  /** Which products a listing request asks for, stated on the parameters
      alone (compare the category by member name, ignoring case). */
  predicate Wanted(q: Params, p: Product)
  {
    if Given(q.name) then p.name == q.name.value
    else if Given(q.category) then NameOf(p.category) == Upper(q.category.value)
    else if Given(q.available) then p.available == ParseAvailable(q.available.value)
    else true
  }

  /** The filter chosen fails with 400 exactly for an unknown category, and
      otherwise selects exactly the wanted products. */
  lemma ChooseFilterMeaning(q: Params)
    ensures ChooseFilter(q).Failure? <==> CategoryRejected(q)
    ensures ChooseFilter(q).Failure? ==> ChooseFilter(q).error == StatusBadRequest
    ensures ChooseFilter(q).Success? ==>
      forall p :: Matches(ChooseFilter(q).value, p) <==> Wanted(q, p)
  {
  }

  /** A given name decides the search whatever the other two parameters
      say, even a category no member is named after. */
  lemma NameTakesPrecedence(q: Params, q': Params)
    requires Given(q.name) && q'.name == q.name
    ensures ChooseFilter(q) == ChooseFilter(q') == Success(ByName(q.name.value))
  {
  }

  /** A given category decides the search whatever availability says. */
  lemma CategoryBeforeAvailability(q: Params, available: Option<string>)
    requires !Given(q.name) && Given(q.category)
    ensures ChooseFilter(q) == ChooseFilter(q.(available := available))
  {
  }

  /** An empty parameter behaves exactly like an absent one. */
  lemma EmptyMeansAbsent(q: Params)
    ensures ChooseFilter(q.(name := Some(""))) == ChooseFilter(q.(name := None))
    ensures ChooseFilter(q.(category := Some(""))) == ChooseFilter(q.(category := None))
    ensures ChooseFilter(q.(available := Some(""))) == ChooseFilter(q.(available := None))
  {
  }

  /** The category parameter is read without regard to case: "tools",
      "Tools" and "TOOLS" choose the same search. */
  lemma CategoryIgnoresCase(q: Params, category: string)
    requires q.category.Some? && Lower(q.category.value) == Lower(category)
    ensures ChooseFilter(q) == ChooseFilter(q.(category := Some(category)))
  {
    UpperIgnoresCase(q.category.value, category);
  }

  /** The availability flag spelled out: true for "1" and for "t" and "true"
      in any mix of case, false for everything else. */
  lemma ParseAvailableMeaning(s: string)
    ensures ParseAvailable(s) <==>
      s == "1" || s == "t" || s == "T" ||
      (|s| == 4 && s[0] in "tT" && s[1] in "rR" && s[2] in "uU" && s[3] in "eE")
  {
    var l := Lower(s);
    if |s| == 1 {
      assert l == [LowerChar(s[0])];
      assert s == [s[0]];
    } else if |s| == 4 {
      assert l == [LowerChar(s[0]), LowerChar(s[1]), LowerChar(s[2]), LowerChar(s[3])];
    } else {
      assert l != "true" && l != "1" && l != "t";
    }
  }
}
