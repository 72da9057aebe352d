/** The password index and passname addressing of the Teampass command-line client.
    The HTTP gateway is a parameter: `fetch` and `send` map a request URL to the
    server's response, whose JSON body is taken as already decoded. */
module Teampass {
  import opened OrderedDict
  import opened Strings

  /** One stored credential, as the server's JSON gives it. */
  datatype Item = Item(itemLabel: string, login: string, pw: string)

  /** Item id -> item, in the order of the server's JSON object. */
  type ItemDict = Dict<Item>

  /** Category name -> that category's items. */
  type Index = Dict<ItemDict>

  /** Category id -> category name, from the configuration file. */
  type Config = Dict<string>

  /** An HTTP response: status code, raw body, and the body decoded as items. */
  datatype Response = Response(statusCode: int, text: string, json: ItemDict)

  /** The ValueError/KeyError/IndexError the client raises. */
  datatype Error =
    | HttpStatus(code: int, body: string)
    | NoFolderId(folder: string)
    | KeyError(key: string)
    | IndexError

  datatype Result<T> = Ok(value: T) | Err(error: Error)

  /** The client object: its fields are all set by the constructor and never change. */
  datatype TeampassClient = TeampassClient(apiEndpoint: string, apiKey: string, categories: Config, items: Index)

  // ---------------------------------------------------------------------------
  // Building the index (get_items)

  /** The read request for one category: the category id sits between the fixed
      prefix and the key suffix, and can be sliced back out. */
  function ReadCategoryUrl(apiEndpoint: string, category: string, apiKey: string): (url: string)
    ensures |url| == |apiEndpoint + "/read/category/"| + |category| + |"?apikey=" + apiKey|
    ensures url[..|apiEndpoint + "/read/category/"|] == apiEndpoint + "/read/category/"
    ensures url[|apiEndpoint + "/read/category/"|..|url| - |"?apikey=" + apiKey|] == category
    ensures url[|url| - |"?apikey=" + apiKey|..] == "?apikey=" + apiKey
  {
    SliceParts(apiEndpoint + "/read/category/" + category + "?apikey=" + apiKey,
               apiEndpoint + "/read/category/", category, "?apikey=" + apiKey);
    apiEndpoint + "/read/category/" + category + "?apikey=" + apiKey
  }

  /** The response to the read request for one category id. */
  function Fetched(apiEndpoint: string, apiKey: string, fetch: string -> Response, category: string): Response
  {
    fetch(ReadCategoryUrl(apiEndpoint, category, apiKey))
  }

  predicate Fails(apiEndpoint: string, apiKey: string, fetch: string -> Response, category: string)
  {
    Fetched(apiEndpoint, apiKey, fetch, category).statusCode != 200
  }

  /** The loop of get_items from the dict `results` on, over the categories still to fetch. */
  function ItemsFrom(results: Index, apiEndpoint: string, apiKey: string, categories: Config,
                     fetch: string -> Response): (r: Result<Index>)
    decreases |categories|
    ensures r.Err? ==> r.error.HttpStatus?
    ensures r.Ok? ==> Keys(results) <= Keys(r.value) && |r.value| <= |results| + |categories|
  {
    if |categories| == 0 then Ok(results)
    else
      var req := Fetched(apiEndpoint, apiKey, fetch, categories[0].0);
      if req.statusCode != 200 then Err(HttpStatus(req.statusCode, req.text))
      else ItemsFrom(Put(results, categories[0].1, req.json), apiEndpoint, apiKey, categories[1..], fetch)
  }

  /** get_items: the index built from an empty dict over all configured categories. */
  function Items(apiEndpoint: string, apiKey: string, categories: Config, fetch: string -> Response): (r: Result<Index>)
    ensures r.Err? ==> r.error.HttpStatus?
    ensures r.Ok? ==> |r.value| <= |categories|
  {
    ItemsFrom([], apiEndpoint, apiKey, categories, fetch)
  }

  method GetItems(apiEndpoint: string, apiKey: string, categories: Config, fetch: string -> Response)
    returns (r: Result<Index>)
    ensures r == Items(apiEndpoint, apiKey, categories, fetch)
  {
    var results: Index := [];
    var i := 0;
    while i < |categories|
      invariant 0 <= i <= |categories|
      invariant ItemsFrom(results, apiEndpoint, apiKey, categories[i..], fetch) == Items(apiEndpoint, apiKey, categories, fetch)
    {
      var (category, categoryName) := categories[i];
      var req := fetch(ReadCategoryUrl(apiEndpoint, category, apiKey));
      if req.statusCode != 200 {
        return Err(HttpStatus(req.statusCode, req.text));
      }
      assert categories[i..][1..] == categories[i + 1..];
      results := Put(results, categoryName, req.json);
      i := i + 1;
    }
    return Ok(results);
  }

  /** The fetch fails exactly when some category's status is not 200, and then with the
      status and body of the first such category. */
  lemma {:induction false} ItemsFromFailure(results: Index, apiEndpoint: string, apiKey: string, categories: Config,
                                            fetch: string -> Response)
    decreases |categories|
    ensures ItemsFrom(results, apiEndpoint, apiKey, categories, fetch).Err? <==>
            exists j :: 0 <= j < |categories| && Fails(apiEndpoint, apiKey, fetch, categories[j].0)
    ensures ItemsFrom(results, apiEndpoint, apiKey, categories, fetch).Err? ==>
            exists j :: 0 <= j < |categories| && Fails(apiEndpoint, apiKey, fetch, categories[j].0) &&
              (forall j' :: 0 <= j' < j ==> !Fails(apiEndpoint, apiKey, fetch, categories[j'].0)) &&
              var req := Fetched(apiEndpoint, apiKey, fetch, categories[j].0);
              ItemsFrom(results, apiEndpoint, apiKey, categories, fetch).error == HttpStatus(req.statusCode, req.text)
  {
    if |categories| > 0 && !Fails(apiEndpoint, apiKey, fetch, categories[0].0) {
      var req := Fetched(apiEndpoint, apiKey, fetch, categories[0].0);
      var tail := categories[1..];
      ItemsFromFailure(Put(results, categories[0].1, req.json), apiEndpoint, apiKey, tail, fetch);
      if exists j :: 0 <= j < |tail| && Fails(apiEndpoint, apiKey, fetch, tail[j].0) {
        var j :| 0 <= j < |tail| && Fails(apiEndpoint, apiKey, fetch, tail[j].0) &&
                 (forall j' :: 0 <= j' < j ==> !Fails(apiEndpoint, apiKey, fetch, tail[j'].0)) &&
                 var req := Fetched(apiEndpoint, apiKey, fetch, tail[j].0);
                 ItemsFrom(results, apiEndpoint, apiKey, categories, fetch).error == HttpStatus(req.statusCode, req.text);
        assert categories[j + 1] == tail[j];
        assert forall j' :: 0 <= j' < j + 1 ==> !Fails(apiEndpoint, apiKey, fetch, categories[j'].0) by {
          forall j' | 0 < j' < j + 1 ensures !Fails(apiEndpoint, apiKey, fetch, categories[j'].0) {
            assert categories[j'] == tail[j' - 1];
          }
        }
      } else {
        forall j | 0 <= j < |categories| ensures !Fails(apiEndpoint, apiKey, fetch, categories[j].0) {
          if j > 0 { assert categories[j] == tail[j - 1]; }
        }
      }
    }
  }

  /** The category names in order of first occurrence, continuing from `seen`. */
  function DistinctNames(seen: seq<string>, categories: Config): (names: seq<string>)
    decreases |categories|
  {
    if |categories| == 0 then seen
    else DistinctNames(if categories[0].1 in seen then seen else seen + [categories[0].1], categories[1..])
  }

  /** The id of the last configured category with the given name. */
  function LastWithName(categories: Config, name: string): (r: Option<string>)
    ensures r.None? <==> forall j :: 0 <= j < |categories| ==> categories[j].1 != name
    ensures r.Some? ==> exists j :: 0 <= j < |categories| && categories[j].0 == r.value && categories[j].1 == name &&
                                    forall j' :: j < j' < |categories| ==> categories[j'].1 != name
  {
    if |categories| == 0 then None
    else
      var later := LastWithName(categories[1..], name);
      if later.Some? then later
      else if categories[0].1 == name then Some(categories[0].0)
      else None
  }

  /** On success the index's keys are the category names in order of first occurrence,
      each name holds the items fetched for the LAST category of that name (a later
      duplicate overwrites an earlier one), and keys stay distinct. */
  lemma {:induction false} ItemsFromSuccess(results: Index, apiEndpoint: string, apiKey: string, categories: Config,
                                            fetch: string -> Response, name: string)
    decreases |categories|
    requires ItemsFrom(results, apiEndpoint, apiKey, categories, fetch).Ok?
    ensures var index := ItemsFrom(results, apiEndpoint, apiKey, categories, fetch).value;
            && Keys(index) == DistinctNames(Keys(results), categories)
            && (KeysUnique(results) ==> KeysUnique(index))
            && Get(index, name) == match LastWithName(categories, name)
                                   case None => Get(results, name)
                                   case Some(id) => Some(Fetched(apiEndpoint, apiKey, fetch, id).json)
  {
    if |categories| > 0 {
      var req := Fetched(apiEndpoint, apiKey, fetch, categories[0].0);
      var next := Put(results, categories[0].1, req.json);
      ItemsFromSuccess(next, apiEndpoint, apiKey, categories[1..], fetch, name);
      PutGet(results, categories[0].1, req.json, name);
      if KeysUnique(results) {
        PutKeysUnique(results, categories[0].1, req.json);
      }
    }
  }

  /** The error, or the client whose index holds the fetched categories (__init__). */
  method NewClient(apiEndpoint: string, apiKey: string, categories: Config, fetch: string -> Response)
    returns (r: Result<TeampassClient>)
    ensures r.Err? <==> exists j :: 0 <= j < |categories| && Fails(apiEndpoint, apiKey, fetch, categories[j].0)
    ensures r.Err? ==> Items(apiEndpoint, apiKey, categories, fetch).Err? &&
                       r.error == Items(apiEndpoint, apiKey, categories, fetch).error
    ensures r.Ok? ==> Items(apiEndpoint, apiKey, categories, fetch).Ok? && r.value == TeampassClient(apiEndpoint, apiKey, categories, Items(apiEndpoint, apiKey, categories, fetch).value)
    ensures r.Ok? ==> KeysUnique(r.value.items) && Keys(r.value.items) == DistinctNames([], categories)
  {
    ItemsFromFailure([], apiEndpoint, apiKey, categories, fetch);
    var items := GetItems(apiEndpoint, apiKey, categories, fetch);
    match items
    case Err(e) =>
      r := Err(e);
    case Ok(index) =>
      ItemsFromSuccess([], apiEndpoint, apiKey, categories, fetch, "");
      r := Ok(TeampassClient(apiEndpoint, apiKey, categories, index));
  }

  // ---------------------------------------------------------------------------
  // Passnames (get_passnames)

  /** The passname of one item: category, label and login joined by '/'. */
  function PassnameOf(category: string, item: Item): (passname: string)
    ensures |category| < |passname| && passname[..|category| + 1] == category + "/"
  {
    category + "/" + item.itemLabel + "/" + item.login
  }

  /** The passnames of one category's items, in item order. */
  function CategoryPassnames(category: string, items: ItemDict): (names: seq<string>)
    ensures |names| == |items|
    ensures forall j :: 0 <= j < |items| ==> names[j] == PassnameOf(category, items[j].1)
  {
    if |items| == 0 then []
    else CategoryPassnames(category, items[..|items| - 1]) + [PassnameOf(category, items[|items| - 1].1)]
  }

  /** The number of items across all categories. */
  function TotalItems(index: Index): nat
  {
    if |index| == 0 then 0 else TotalItems(index[..|index| - 1]) + |index[|index| - 1].1|
  }

  /** Every item's passname, in category order and then item order. */
  function Passnames(index: Index): (names: seq<string>)
    ensures |names| == TotalItems(index)
  {
    if |index| == 0 then []
    else
      var (category, items) := index[|index| - 1];
      Passnames(index[..|index| - 1]) + CategoryPassnames(category, items)
  }

  lemma {:induction false} TotalItemsPrefix(index: Index, c: nat)
    requires c < |index|
    ensures TotalItems(index[..c]) + |index[c].1| <= TotalItems(index)
  {
    var n := |index| - 1;
    if c < n {
      assert index[..n][..c] == index[..c] && index[..n][c] == index[c];
      TotalItemsPrefix(index[..n], c);
    } else {
      assert index[..c] == index[..n];
    }
  }

  /** Item j of category c has its passname at position TotalItems(index[..c]) + j. */
  lemma {:induction false} PassnameAt(index: Index, c: nat, j: nat)
    requires c < |index| && j < |index[c].1|
    ensures TotalItems(index[..c]) + j < |Passnames(index)|
    ensures Passnames(index)[TotalItems(index[..c]) + j] == PassnameOf(index[c].0, index[c].1[j].1)
  {
    var n := |index| - 1;
    var front := Passnames(index[..n]);
    var last := CategoryPassnames(index[n].0, index[n].1);
    assert Passnames(index) == front + last;
    TotalItemsPrefix(index, c);
    if c < n {
      assert index[..n][..c] == index[..c] && index[..n][c] == index[c];
      PassnameAt(index[..n], c, j);
      assert (front + last)[TotalItems(index[..c]) + j] == front[TotalItems(index[..c]) + j];
    } else {
      assert index[..c] == index[..n];
      assert (front + last)[|front| + j] == last[j];
    }
  }

  /** Every position of Passnames(index) lies in the block of some category c, so it is
      the passname of item m - TotalItems(index[..c]) of that category (PassnameAt). */
  lemma {:induction false} PassnameSource(index: Index, m: nat)
    requires m < |Passnames(index)|
    ensures exists c :: 0 <= c < |index| && TotalItems(index[..c]) <= m < TotalItems(index[..c]) + |index[c].1|
    ensures exists c, j :: 0 <= c < |index| && 0 <= j < |index[c].1| &&
                           Passnames(index)[m] == PassnameOf(index[c].0, index[c].1[j].1)
  {
    var n := |index| - 1;
    if m < TotalItems(index[..n]) {
      PassnameSource(index[..n], m);
      var c :| 0 <= c < n && TotalItems(index[..n][..c]) <= m < TotalItems(index[..n][..c]) + |index[..n][c].1|;
      assert index[..n][..c] == index[..c] && index[..n][c] == index[c];
    } else {
      assert TotalItems(index[..n]) <= m < TotalItems(index[..n]) + |index[n].1|;
    }
    var c :| 0 <= c < |index| && TotalItems(index[..c]) <= m < TotalItems(index[..c]) + |index[c].1|;
    PassnameAt(index, c, m - TotalItems(index[..c]));
  }

  method GetPassnames(client: TeampassClient) returns (passList: seq<string>)
    ensures passList == Passnames(client.items)
  {
    passList := [];
    var c := 0;
    while c < |client.items|
      invariant 0 <= c <= |client.items|
      invariant passList == Passnames(client.items[..c])
    {
      var (category, items) := client.items[c];
      var j := 0;
      while j < |items|
        invariant 0 <= j <= |items|
        invariant passList == Passnames(client.items[..c]) + CategoryPassnames(category, items[..j])
      {
        passList := passList + [PassnameOf(category, items[j].1)];
        assert items[..j + 1][..j] == items[..j];
        j := j + 1;
      }
      assert items[..j] == items;
      assert client.items[..c + 1][..c] == client.items[..c];
      c := c + 1;
    }
    assert client.items[..c] == client.items;
  }

  // ---------------------------------------------------------------------------
  // Addressing by passname (get_password, get_folder_id)

  /** passname.split('/') and segments 0, 1, 2; Python's IndexError below three segments. */
  function ParsePassname(passname: string): (r: Result<(string, string, string)>)
    ensures r.Err? <==> Count(passname, '/') < 2
    ensures r.Err? ==> r.error == IndexError
    ensures r.Ok? ==> '/' !in r.value.0 && '/' !in r.value.1 && '/' !in r.value.2
  {
    var path := Split(passname, '/');
    if |path| < 3 then Err(IndexError) else Ok((path[0], path[1], path[2]))
  }

  /** A parsed passname is its three parts joined by '/', then nothing or more segments. */
  lemma ParsePassnameShape(passname: string)
    requires ParsePassname(passname).Ok?
    ensures var (category, itemLabel, login) := ParsePassname(passname).value;
            exists rest :: passname == category + "/" + itemLabel + "/" + login + rest && (rest == "" || rest[0] == '/')
  {
    var path := Split(passname, '/');
    JoinSplit(passname, '/');
    JoinThree(path, '/');
    var rest := JoinTail(path[3..], '/');
    assert passname == path[0] + "/" + path[1] + "/" + path[2] + rest;
  }

  /** Parsing three or more '/'-free segments joined by '/' yields the first three;
      further segments are ignored. */
  lemma ParseJoined(segments: seq<string>)
    requires |segments| >= 3
    requires forall i :: 0 <= i < |segments| ==> '/' !in segments[i]
    ensures ParsePassname(Join(segments, '/')) == Ok((segments[0], segments[1], segments[2]))
  {
    SplitJoin(segments, '/');
  }

  /** "category/label/login" parses to its three parts whatever segments follow. */
  lemma ParseWithRest(category: string, itemLabel: string, login: string, rest: string)
    requires '/' !in category && '/' !in itemLabel && '/' !in login
    requires rest == "" || rest[0] == '/'
    ensures ParsePassname(category + "/" + itemLabel + "/" + login + rest) == Ok((category, itemLabel, login))
  {
    var more := if rest == "" then [] else Split(rest[1..], '/');
    var segments := [category, itemLabel, login] + more;
    JoinThree(segments, '/');
    assert segments[3..] == more;
    if rest != "" {
      JoinSplit(rest[1..], '/');
      assert rest == "/" + rest[1..];
    }
    assert Join(segments, '/') == category + "/" + itemLabel + "/" + login + rest;
    ParseJoined(segments);
  }

  /** The item is addressed by this label and login, whatever its password. */
  predicate Matches(item: Item, itemLabel: string, login: string)
  {
    item.itemLabel == itemLabel && item.login == login
  }

  /** The pw of the first item whose label and login match, or None. */
  function FirstPassword(items: ItemDict, itemLabel: string, login: string): (r: Option<string>)
    ensures r.None? <==> forall j :: 0 <= j < |items| ==> !Matches(items[j].1, itemLabel, login)
    ensures r.Some? ==> exists j :: 0 <= j < |items| && Matches(items[j].1, itemLabel, login) && r.value == items[j].1.pw &&
                                    forall j' :: 0 <= j' < j ==> !Matches(items[j'].1, itemLabel, login)
  {
    if |items| == 0 then None
    else if Matches(items[0].1, itemLabel, login) then Some(items[0].1.pw)
    else
      var r := FirstPassword(items[1..], itemLabel, login);
      assert forall j :: 0 < j < |items| ==> items[j] == items[1..][j - 1];
      r
  }

  /** get_password: IndexError on fewer than three segments, KeyError on an unknown
      category, otherwise the first matching password or None. */
  function GetPassword(client: TeampassClient, passname: string): (r: Result<Option<string>>)
    ensures r == Err(IndexError) <==> Count(passname, '/') < 2
    ensures ParsePassname(passname).Ok? ==>
              var (category, itemLabel, login) := ParsePassname(passname).value;
              && (category !in Keys(client.items) ==> r == Err(KeyError(category)))
              && (category in Keys(client.items) ==>
                    r == Ok(FirstPassword(Get(client.items, category).value, itemLabel, login)))
  {
    match ParsePassname(passname)
    case Err(e) => Err(e)
    case Ok((category, itemLabel, login)) =>
      match Get(client.items, category)
      case None => Err(KeyError(category))
      case Some(items) => Ok(FirstPassword(items, itemLabel, login))
  }

  /** A passname built from '/'-free parts parses back to those parts. */
  lemma ParsePassnameOf(category: string, item: Item)
    requires '/' !in category && '/' !in item.itemLabel && '/' !in item.login
    ensures ParsePassname(PassnameOf(category, item)) == Ok((category, item.itemLabel, item.login))
  {
    ParseWithRest(category, item.itemLabel, item.login, "");
    assert PassnameOf(category, item) + "" == PassnameOf(category, item);
  }

  /** The passname of a listed item leads back to a password: that of the first item
      in its category with the same label and login. */
  lemma ShowListedPassname(client: TeampassClient, c: nat, j: nat)
    requires KeysUnique(client.items)
    requires c < |client.items| && j < |client.items[c].1|
    requires '/' !in client.items[c].0
    requires '/' !in client.items[c].1[j].1.itemLabel && '/' !in client.items[c].1[j].1.login
    ensures var (category, items) := client.items[c];
            var item := items[j].1;
            && TotalItems(client.items[..c]) + j < |Passnames(client.items)|
            && GetPassword(client, Passnames(client.items)[TotalItems(client.items[..c]) + j])
               == Ok(FirstPassword(items, item.itemLabel, item.login))
            && FirstPassword(items, item.itemLabel, item.login).Some?
  {
    var (category, items) := client.items[c];
    var item := items[j].1;
    PassnameAt(client.items, c, j);
    var passname := Passnames(client.items)[TotalItems(client.items[..c]) + j];
    assert passname == PassnameOf(category, item);
    ParsePassnameOf(category, item);
    GetAt(client.items, c);
    assert GetPassword(client, passname) == Ok(FirstPassword(items, item.itemLabel, item.login));
    assert Matches(items[j].1, item.itemLabel, item.login);
  }

  /** One configured category "Finance" (id "3") holding one item: the index has that
      category, the only passname is "Finance/bank/alice", and showing it gives "secret". */
  lemma FinanceScenario(apiEndpoint: string, apiKey: string, fetch: string -> Response)
    requires fetch(ReadCategoryUrl(apiEndpoint, "3", apiKey)) == Response(200, "", [("7", Item("bank", "alice", "secret"))])
    ensures var index := [("Finance", [("7", Item("bank", "alice", "secret"))])];
            && Items(apiEndpoint, apiKey, [("3", "Finance")], fetch) == Ok(index)
            && Passnames(index) == ["Finance/bank/alice"]
            && GetPassword(TeampassClient(apiEndpoint, apiKey, [("3", "Finance")], index), "Finance/bank/alice")
               == Ok(Some("secret"))
  {
    var index := [("Finance", [("7", Item("bank", "alice", "secret"))])];
    var client := TeampassClient(apiEndpoint, apiKey, [("3", "Finance")], index);
    assert index[..0] == [];
    assert TotalItems(index) == 1;
    PassnameAt(index, 0, 0);
    assert PassnameOf("Finance", Item("bank", "alice", "secret")) == "Finance/bank/alice";
    ShowListedPassname(client, 0, 0);
  }

  /** get_folder_id: the id of the first configured category with this name. */
  function GetFolderId(categories: Config, folder: string): (r: Result<string>)
    ensures r.Err? <==> forall i :: 0 <= i < |categories| ==> categories[i].1 != folder
    ensures r.Err? ==> r.error == NoFolderId(folder)
    ensures r.Ok? ==> exists i :: 0 <= i < |categories| && categories[i].0 == r.value && categories[i].1 == folder &&
                                  forall i' :: 0 <= i' < i ==> categories[i'].1 != folder
  {
    if |categories| == 0 then Err(NoFolderId(folder))
    else if categories[0].1 == folder then Ok(categories[0].0)
    else
      var r := GetFolderId(categories[1..], folder);
      assert forall i :: 0 < i < |categories| ==> categories[i] == categories[1..][i - 1];
      r
  }

  // ---------------------------------------------------------------------------
  // Searching (find_password)

  /** The names the search predicate accepts for this pattern, in their order. */
  function Filter(names: seq<string>, pattern: string, search: (string, string) -> bool): (r: seq<string>)
    ensures |r| <= |names|
    ensures forall i :: 0 <= i < |r| ==> search(pattern, r[i])
  {
    if |names| == 0 then []
    else
      var last := names[|names| - 1];
      assert names == names[..|names| - 1] + [last];
      Filter(names[..|names| - 1], pattern, search) + (if search(pattern, last) then [last] else [])
  }

  /** A name is kept exactly when it is in the list and the search accepts it. */
  lemma {:induction false} FilterMembers(names: seq<string>, pattern: string, search: (string, string) -> bool, x: string)
    ensures x in Filter(names, pattern, search) <==> x in names && search(pattern, x)
  {
    if |names| > 0 {
      var n := |names| - 1;
      FilterMembers(names[..n], pattern, search, x);
      assert names == names[..n] + [names[n]];
    }
  }

  /** Filtering keeps order: it distributes over concatenation. */
  lemma {:induction false} FilterAppend(a: seq<string>, b: seq<string>, pattern: string, search: (string, string) -> bool)
    ensures Filter(a + b, pattern, search) == Filter(a, pattern, search) + Filter(b, pattern, search)
  {
    if |b| > 0 {
      var n := |b| - 1;
      assert (a + b)[..|a + b| - 1] == a + b[..n];
      FilterAppend(a, b[..n], pattern, search);
    } else {
      assert a + b == a;
    }
  }

  /** A pattern that every name matches (".*") keeps the whole list. */
  lemma {:induction false} FilterAll(names: seq<string>, pattern: string, search: (string, string) -> bool)
    requires forall x :: x in names ==> search(pattern, x)
    ensures Filter(names, pattern, search) == names
  {
    if |names| > 0 {
      var n := |names| - 1;
      assert names == names[..n] + [names[n]];
      FilterAll(names[..n], pattern, search);
    }
  }

  /** One more name: the filter of a longer prefix adds that name when the search accepts it. */
  lemma FilterStep(names: seq<string>, i: nat, pattern: string, search: (string, string) -> bool)
    requires i < |names|
    ensures Filter(names[..i + 1], pattern, search)
         == Filter(names[..i], pattern, search) + (if search(pattern, names[i]) then [names[i]] else [])
  {
    assert names[..i + 1][..i] == names[..i];
  }

  /** find_password: the passnames it prints, one per line, in order. */
  method FindPassword(client: TeampassClient, pattern: string, search: (string, string) -> bool)
    returns (printed: seq<string>)
    ensures printed == Filter(Passnames(client.items), pattern, search)
  {
    var names := GetPassnames(client);
    printed := [];
    for i := 0 to |names|
      invariant printed == Filter(names[..i], pattern, search)
    {
      FilterStep(names, i, pattern, search);
      if search(pattern, names[i]) {
        printed := printed + [names[i]];
      }
    }
    assert names[..|names|] == names;
  }

  // ---------------------------------------------------------------------------
  // Inserting (insert_password)

  /** The add request: the fixed prefix, the five fields joined by ';' (the third one
      empty), and the key suffix. */
  function AddItemUrl(apiEndpoint: string, itemLabel: string, password: string, folderId: string,
                      login: string, apiKey: string): (url: string)
    ensures var p := |apiEndpoint + "/add/item/"|;
            var q := |url| - |"?apikey=" + apiKey|;
            && p <= q
            && url[..p] == apiEndpoint + "/add/item/"
            && url[p..q] == Join([itemLabel, password, "", folderId, login], ';')
            && url[q..] == "?apikey=" + apiKey
  {
    AddItemPathJoin(itemLabel, password, folderId, login);
    SliceParts(apiEndpoint + "/add/item/" + itemLabel + ";" + password + ";;" + folderId + ";" + login + "?apikey=" + apiKey,
               apiEndpoint + "/add/item/", itemLabel + ";" + password + ";;" + folderId + ";" + login, "?apikey=" + apiKey);
    apiEndpoint + "/add/item/" + itemLabel + ";" + password + ";;" + folderId + ";" + login + "?apikey=" + apiKey
  }

  /** The path part of the add request is the five fields joined by ';'. */
  lemma AddItemPathJoin(itemLabel: string, password: string, folderId: string, login: string)
    ensures Join([itemLabel, password, "", folderId, login], ';')
         == itemLabel + ";" + password + ";;" + folderId + ";" + login
  {
    var fields := [itemLabel, password, "", folderId, login];
    JoinThree(fields, ';');
    JoinFirst(fields[3..], ';');
    assert fields[3..][1..] == [login];
  }

  /** When no field holds ';', the path between "/add/item/" and "?apikey=" splits on ';'
      back into label, password, an empty field, folder id and login. */
  lemma AddItemUrlFields(apiEndpoint: string, itemLabel: string, password: string, folderId: string,
                         login: string, apiKey: string)
    requires ';' !in itemLabel && ';' !in password && ';' !in folderId && ';' !in login
    ensures var url := AddItemUrl(apiEndpoint, itemLabel, password, folderId, login, apiKey);
            var p := |apiEndpoint + "/add/item/"|;
            var q := |url| - |"?apikey=" + apiKey|;
            && p <= q
            && url[..p] == apiEndpoint + "/add/item/"
            && url[q..] == "?apikey=" + apiKey
            && Split(url[p..q], ';') == [itemLabel, password, "", folderId, login]
  {
    var url := AddItemUrl(apiEndpoint, itemLabel, password, folderId, login, apiKey);
    var fields := [itemLabel, password, "", folderId, login];
    var path := itemLabel + ";" + password + ";;" + folderId + ";" + login;
    assert url == (apiEndpoint + "/add/item/") + path + ("?apikey=" + apiKey);
    SliceParts(url, apiEndpoint + "/add/item/", path, "?apikey=" + apiKey);
    AddItemPathJoin(itemLabel, password, folderId, login);
    SplitJoin(fields, ';');
  }

  /** With ';' inside a field the request is ambiguous: moving a ';' from the label to
      the password gives the same URL. */
  lemma AddItemUrlAmbiguous(apiEndpoint: string, a: string, b: string, c: string, folderId: string,
                            login: string, apiKey: string)
    ensures AddItemUrl(apiEndpoint, a + ";" + b, c, folderId, login, apiKey)
         == AddItemUrl(apiEndpoint, a, b + ";" + c, folderId, login, apiKey)
  {
  }

  /** insert_password: parse the passname, look up the folder id, send the add request.
      On success the value is the URL that was requested. */
  function InsertPassword(client: TeampassClient, passname: string, password: string, send: string -> Response)
    : (r: Result<string>)
    ensures r == Err(IndexError) <==> Count(passname, '/') < 2
    ensures r.Ok? ==> send(r.value).statusCode == 200
    ensures ParsePassname(passname).Ok? ==>
              var (folder, itemLabel, login) := ParsePassname(passname).value;
              && (GetFolderId(client.categories, folder).Err? ==> r == Err(NoFolderId(folder)))
              && (GetFolderId(client.categories, folder).Ok? ==>
                    var url := AddItemUrl(client.apiEndpoint, itemLabel, password,
                                          GetFolderId(client.categories, folder).value, login, client.apiKey);
                    r == if send(url).statusCode == 200 then Ok(url)
                         else Err(HttpStatus(send(url).statusCode, send(url).text)))
  {
    match ParsePassname(passname)
    case Err(e) => Err(e)
    case Ok((folder, itemLabel, login)) =>
      match GetFolderId(client.categories, folder)
      case Err(e) => Err(e)
      case Ok(folderId) =>
        var url := AddItemUrl(client.apiEndpoint, itemLabel, password, folderId, login, client.apiKey);
        var req := send(url);
        if req.statusCode != 200 then Err(HttpStatus(req.statusCode, req.text)) else Ok(url)
  }

  /** For "folder/label/login[/...]" the request carries label, password, the folder's
      configured id and login; an unknown folder is NoFolderId, and a non-200 answer
      is an HttpStatus error. */
  lemma InsertPasswordRequest(client: TeampassClient, folder: string, itemLabel: string, login: string, rest: string,
                              password: string, send: string -> Response)
    requires '/' !in folder && '/' !in itemLabel && '/' !in login
    requires rest == "" || rest[0] == '/'
    ensures var r := InsertPassword(client, folder + "/" + itemLabel + "/" + login + rest, password, send);
            match GetFolderId(client.categories, folder)
            case Err(_) => r == Err(NoFolderId(folder))
            case Ok(folderId) =>
              var url := AddItemUrl(client.apiEndpoint, itemLabel, password, folderId, login, client.apiKey);
              r == if send(url).statusCode == 200 then Ok(url)
                   else Err(HttpStatus(send(url).statusCode, send(url).text))
  {
    ParseWithRest(folder, itemLabel, login, rest);
  }
}
