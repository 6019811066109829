/**
 * The unpaged listing query and its filter-key normaliser. Raw query-string filters
 * arrive as `filters[name]=value` or `filters.name=value`; `ParsedFilters` turns them
 * into a map from the bare field name to the value and drops every other key.
 * The raw mapping is a sequence of (key, value) pairs, in the order it is iterated.
 */
module List {
  import opened Base
  import Iter
  import Models

  const BRACKET_PREFIX: string := "filters["
  const BRACKET_SUFFIX: string := "]"
  const DOT_PREFIX: string := "filters."

  /** `str::strip_prefix`. */
  function StripPrefix(s: string, prefix: string): (r: Option<string>)
    ensures r.Some? <==> prefix <= s
    ensures r.Some? ==> prefix + r.value == s
  {
    if prefix <= s then Some(s[|prefix|..]) else None
  }

  /** `str::strip_suffix`. */
  function StripSuffix(s: string, suffix: string): (r: Option<string>)
    ensures r.Some? <==> |suffix| <= |s| && s[|s| - |suffix|..] == suffix
    ensures r.Some? ==> r.value + suffix == s
  {
    if |suffix| <= |s| && s[|s| - |suffix|..] == suffix then Some(s[..|s| - |suffix|]) else None
  }

  /** The bare name a raw key contributes, trying the bracket form first and the dot form second. */
  function FilterName(key: string): (r: Option<string>)
    ensures r.Some? ==> key == BRACKET_PREFIX + r.value + BRACKET_SUFFIX || key == DOT_PREFIX + r.value
  {
    var bracket := match StripPrefix(key, BRACKET_PREFIX)
      case Some(rest) => StripSuffix(rest, BRACKET_SUFFIX)
      case None => None;
    if bracket.Some? then bracket else StripPrefix(key, DOT_PREFIX)
  }

  /** A raw key yields `name` exactly when it is `filters[name]` or `filters.name`. */
  lemma FilterNameForms(key: string, name: string)
    ensures FilterName(key) == Some(name) <==>
      key == BRACKET_PREFIX + name + BRACKET_SUFFIX || key == DOT_PREFIX + name
  {
    if key == BRACKET_PREFIX + name + BRACKET_SUFFIX {
      assert key[..|BRACKET_PREFIX|] == BRACKET_PREFIX;
      assert key[|BRACKET_PREFIX|..] == name + BRACKET_SUFFIX;
    } else if key == DOT_PREFIX + name {
      assert key[|DOT_PREFIX|..] == name;
      assert key[7] != BRACKET_PREFIX[7];
    }
    if FilterName(key) == Some(name) {
      var bracket := match StripPrefix(key, BRACKET_PREFIX)
        case Some(rest) => StripSuffix(rest, BRACKET_SUFFIX)
        case None => None;
      if bracket.Some? {
        var rest := StripPrefix(key, BRACKET_PREFIX).value;
        assert key == BRACKET_PREFIX + rest;
        assert rest == name + BRACKET_SUFFIX;
        assert key == BRACKET_PREFIX + name + BRACKET_SUFFIX;
      }
    }
  }

  /** Keys of neither form are dropped: a plain parameter, and a bracket that is never closed. */
  lemma UnrecognisedKeysDropped()
    ensures FilterName("page") == None
    ensures FilterName("filters[a") == None
  {
    assert |"page"| < |BRACKET_PREFIX| && |"page"| < |DOT_PREFIX|;
    var key := "filters[a";
    assert key[..|BRACKET_PREFIX|] == BRACKET_PREFIX;
    assert StripPrefix(key, BRACKET_PREFIX) == Some("a");
    assert StripSuffix("a", BRACKET_SUFFIX) == None by { assert "a"[0] != ']'; }
    assert !(DOT_PREFIX <= key) by { assert key[7] != DOT_PREFIX[7]; }
  }

  /** Empty names are not rejected, in either form. */
  lemma EmptyNamesAccepted()
    ensures FilterName("filters[]") == Some("")
    ensures FilterName("filters.") == Some("")
  {
    FilterNameForms("filters[]", "");
    FilterNameForms("filters.", "");
  }

  /**
   * The map `ParsedFilters` builds: the raw pairs inserted one after another under their
   * bare names, so that a later pair overwrites an earlier one with the same name.
   */
  function Normalize(raw: seq<(string, string)>): (r: map<string, string>)
    ensures forall name :: name in r ==> exists i :: 0 <= i < |raw| && FilterName(raw[i].0) == Some(name)
  {
    if raw == [] then map[]
    else
      var earlier := Normalize(raw[..|raw| - 1]);
      var (key, value) := raw[|raw| - 1];
      match FilterName(key)
      case Some(name) => earlier[name := value]
      case None => earlier
  }

  /** Pair `i` is the last one in `raw` whose key yields `name`. */
  predicate LastContributor(raw: seq<(string, string)>, name: string, i: int) {
    0 <= i < |raw| && FilterName(raw[i].0) == Some(name) &&
    forall j :: i < j < |raw| ==> FilterName(raw[j].0) != Some(name)
  }

  /** The output names are exactly the names of the recognised raw keys. */
  lemma {:induction false} NormalizeDomain(raw: seq<(string, string)>, name: string)
    ensures name in Normalize(raw) <==> exists i :: 0 <= i < |raw| && FilterName(raw[i].0) == Some(name)
  {
    if raw != [] {
      var n := |raw| - 1;
      var prefix := raw[..n];
      NormalizeDomain(prefix, name);
      if name in Normalize(raw) && FilterName(raw[n].0) != Some(name) {
        assert name in Normalize(prefix);
        var i :| 0 <= i < n && FilterName(prefix[i].0) == Some(name);
        assert raw[i] == prefix[i];
      }
      if exists i :: 0 <= i < |raw| && FilterName(raw[i].0) == Some(name) {
        var i :| 0 <= i < |raw| && FilterName(raw[i].0) == Some(name);
        if i < n { assert prefix[i] == raw[i]; }
      }
    }
  }

  /** The value stored under a name is the value of the last raw pair with that name, unaltered. */
  lemma {:induction false} NormalizeLastWins(raw: seq<(string, string)>, name: string, i: int)
    requires LastContributor(raw, name, i)
    ensures name in Normalize(raw) && Normalize(raw)[name] == raw[i].1
  {
    var n := |raw| - 1;
    if i < n {
      var prefix := raw[..n];
      assert prefix[i] == raw[i];
      assert LastContributor(prefix, name, i) by {
        forall j | i < j < |prefix| ensures FilterName(prefix[j].0) != Some(name) {
          assert prefix[j] == raw[j];
        }
      }
      NormalizeLastWins(prefix, name, i);
    }
  }

  /** No two recognised raw keys yield the same name. */
  predicate NoCollisions(raw: seq<(string, string)>) {
    forall i, j :: 0 <= i < j < |raw| && FilterName(raw[i].0).Some? ==> FilterName(raw[j].0) != FilterName(raw[i].0)
  }

  /** The number of raw keys of either recognised form. */
  function RecognisedCount(raw: seq<(string, string)>): nat {
    if raw == [] then 0
    else RecognisedCount(raw[..|raw| - 1]) + (if FilterName(raw[|raw| - 1].0).Some? then 1 else 0)
  }

  /** Without collisions the output has one entry per recognised raw key. */
  lemma {:induction false} NormalizeSizeWithoutCollisions(raw: seq<(string, string)>)
    requires NoCollisions(raw)
    ensures |Normalize(raw)| == RecognisedCount(raw)
  {
    if raw != [] {
      var n := |raw| - 1;
      var prefix := raw[..n];
      assert NoCollisions(prefix) by {
        forall i, j | 0 <= i < j < |prefix| && FilterName(prefix[i].0).Some?
          ensures FilterName(prefix[j].0) != FilterName(prefix[i].0)
        {
          assert prefix[i] == raw[i] && prefix[j] == raw[j];
        }
      }
      NormalizeSizeWithoutCollisions(prefix);
      match FilterName(raw[n].0)
      case Some(name) =>
        NormalizeDomain(prefix, name);
        assert name !in Normalize(prefix);
      case None =>
    }
  }

  /** The query-string example: bracket and dot keys are normalised, `page` is dropped. */
  lemma NormalizeExample()
    ensures Normalize([("filters[age]", "30"), ("filters.name", "Alice"), ("page", "1")])
      == map["age" := "30", "name" := "Alice"]
  {
    var raw := [("filters[age]", "30"), ("filters.name", "Alice"), ("page", "1")];
    FilterNameForms("filters[age]", "age");
    FilterNameForms("filters.name", "name");
    UnrecognisedKeysDropped();
    assert raw[..2][..1] == [("filters[age]", "30")];
    assert raw[..2][..1][..0] == [];
    assert Normalize(raw[..1]) == map["age" := "30"];
  }

  /** When the bracket and dot forms name the same field, whichever comes later in iteration order wins. */
  lemma CollisionLaterWins()
    ensures Normalize([("filters[a]", "1"), ("filters.a", "2")]) == map["a" := "2"]
    ensures Normalize([("filters.a", "2"), ("filters[a]", "1")]) == map["a" := "1"]
  {
    FilterNameForms("filters[a]", "a");
    FilterNameForms("filters.a", "a");
    assert [("filters[a]", "1"), ("filters.a", "2")][..1][..0] == [];
    assert [("filters.a", "2"), ("filters[a]", "1")][..1][..0] == [];
  }

  /** Query-string parameters of an unpaged listing request. */
  datatype ListQuery = ListQuery(
    sort_by: Option<string>,
    sort_order: Models.SortOrder,
    search: Option<string>,
    filters: Option<seq<(string, string)>>)
  {
    /** The value missing parameters fall back to. */
    static function Default(): (q: ListQuery)
      ensures q.sort_by == None && q.sort_order == Models.SortOrder.Desc
      ensures q.search == None && q.filters == None
    {
      ListQuery(None, Models.SortOrder.Desc, None, None)
    }

    /**
     * No raw filters give no filters; otherwise a fresh map is filled with the recognised
     * keys, in iteration order, under their bare names.
     */
    method ParsedFilters() returns (r: Option<map<string, string>>)
      ensures r.None? <==> filters.None?
      ensures filters.Some? ==> r == Some(Normalize(filters.value))
    {
      if filters.None? {
        return None;
      }
      var raw := filters.value;
      var parsed: map<string, string> := map[];
      var i := 0;
      while i < |raw|
        invariant 0 <= i <= |raw|
        invariant parsed == Normalize(raw[..i])
      {
        var (key, value) := raw[i];
        assert raw[..i + 1][..i] == raw[..i];
        var bracket := StripPrefix(key, BRACKET_PREFIX);
        var name: Option<string> := None;
        if bracket.Some? {
          name := StripSuffix(bracket.value, BRACKET_SUFFIX);
        }
        if name.Some? {
          parsed := parsed[name.value := value];
        } else {
          var dot := StripPrefix(key, DOT_PREFIX);
          if dot.Some? {
            parsed := parsed[dot.value := value];
          }
        }
        i := i + 1;
      }
      assert raw[..i] == raw;
      return Some(parsed);
    }
  }

  /** `ListData` as list.rs declares it, with the same contract as in models.rs. */
  datatype ListData<T> = ListData(items: seq<T>, total_count: u64)
  {
    static function New(items: seq<T>): (r: ListData<T>)
      requires |items| <= U64_MAX
      ensures r.items == items && r.total_count == |items|
    {
      ListData(items, |items|)
    }

    function Map<P>(f: T -> P): (r: ListData<P>)
      ensures |r.items| == |items|
      ensures forall i :: 0 <= i < |items| ==> r.items[i] == f(items[i])
      ensures r.total_count == total_count
    {
      ListData(Iter.Map(f, items), total_count)
    }

    function TryMap<P, E>(f: T -> Result<P, E>): (r: Result<ListData<P>, E>)
      ensures r.Ok? <==> forall i :: 0 <= i < |items| ==> f(items[i]).Ok?
      ensures r.Ok? ==> |r.value.items| == |items| && r.value.total_count == total_count
      ensures r.Ok? ==> forall i :: 0 <= i < |items| ==> f(items[i]).Ok? && r.value.items[i] == f(items[i]).value
      ensures r.Err? ==> exists k :: Iter.FailsFirstAt(f, items, k) && r.error == f(items[k]).error
    {
      match Iter.TryMap(f, items)
      case Err(e) => Err(e)
      case Ok(converted) => Ok(ListData(converted, total_count))
    }
  }
}
