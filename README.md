# Teampass client: password index and passname addressing

This project models the core of `TeampassClient`, a command-line client for the Teampass
password manager. The client reads every configured category from the server into an
in-memory index (category name → item id → `{label, login, pw}`). It names each item by a
*passname* `category/label/login`, looks passwords up by passname, filters passnames with
a search pattern, and builds the request that adds a new item to a folder.

Python dicts keep insertion order, and both "first match" and the output order depend on
it. So every dict here (the index, each category's items, the category configuration
id → name) is an ordered sequence of key/value pairs (`OrderedDict.Dict`). `Put` follows
Python's `d[k] = v`: an existing key keeps its position and takes the new value, and a new
key goes last.

Modules:

- `OrderedDict`: Python dict lookup (`Get`, `None` where Python raises `KeyError`) and assignment (`Put`).
- `Strings`: `str.split` and `str.join` for a one-character separator, with their round trips.
- `Teampass`: the client.
  - `TeampassClient` is a value, because no method changes its fields after `__init__`.
  - `NewClient` is `__init__`.
  - `GetItems` and `GetPassnames` are methods whose loops fill the dict and the list, as the source does.
  - `ItemsFrom`/`Items` and `Passnames` are the functions those loops are proved against.
  - The searches `GetFolderId` and `FirstPassword` are recursive functions.
  - `ParsePassname`, `AddItemUrl` and `InsertPassword` cover the passname parsing and the add-item request.

The HTTP gateway is a parameter. `fetch` (in `get_items`) and `send` (in `insert_password`)
map a request URL to a `Response`: a status code, the body text and the body already
decoded as items. `re.search(pattern, name)` is the parameter `search(pattern, name)`.

Three behaviours of the client shape the contracts below:

- A passname with more than three `/`-separated segments is accepted, and the extra segments are ignored.
- `get_password` returns the first matching item's password, or `None` when nothing matches. It does not require exactly one match and does not raise a not-found error.
- An unknown category raises `KeyError` naming that category.

The add-item URL embeds its fields unescaped between `;` delimiters. `Teampass.AddItemUrlAmbiguous` shows that two different inserts can then produce the same request.

## Model

| member | source | states |
|---|---|---|
| `Strings.Split` | teampass.py:74 | `str.split(sep)` has one more piece than `s` has separators, and no piece contains the separator |
| `Strings.JoinSplit` | teampass.py:74 | joining the pieces of a split with the separator gives back the original string |
| `Strings.SplitJoin` | teampass.py:74 | splitting a join of one or more separator-free pieces gives back exactly those pieces |
| `OrderedDict.Get` | teampass.py:76 | `d[k]` is `None` (Python's `KeyError`) exactly when `k` is not a key; otherwise it is the value of the first pair with key `k` |
| `OrderedDict.Put` | teampass.py:51 | after `d[k] = v`, the key order is unchanged if `k` was already a key; otherwise `k` is appended last |
| `OrderedDict.PutGet` | teampass.py:51 | after `d[k] = v`, `d[k]` is `v` and every other key reads as before |
| `OrderedDict.PutKeysUnique` | teampass.py:51 | assignment keeps a dict's keys distinct |
| `OrderedDict.GetAt` | teampass.py:76 | in a dict with distinct keys, looking up pair i's key gives pair i's value |
| `Teampass.ReadCategoryUrl` | teampass.py:44-45 | the read request is `/read/category/` after the endpoint, then the category id, then `?apikey=` and the key; the id can be sliced back out between the two |
| `Teampass.ItemsFrom` | teampass.py:41-52 | the accumulating fold over the categories fails only with an HTTP status; on success every key already in the index stays a key, and at most one key is added per category |
| `Teampass.Items` | teampass.py:41-52 | building the index from scratch fails only with an HTTP status; on success the index has at most one key per configured category |
| `Teampass.GetItems` | teampass.py:41-52 | the loop fetches each category in configuration order, stops at the first non-200 status, and otherwise stores each result under the category name; its result equals the specification `Items` |
| `Teampass.ItemsFromFailure` | teampass.py:43-50 | building the index fails exactly when some category's status is not 200; the error is the status and body of the first such category |
| `Teampass.ItemsFromSuccess` | teampass.py:42-52 | on success the index keys are the category names in first-occurrence order and stay distinct; each name holds the items fetched for the last configured category of that name, so a later duplicate overwrites an earlier one |
| `Teampass.LastWithName` | teampass.py:43-51 | returns the id of the last configured category with the given name, or `None` when no category has it |
| `Teampass.NewClient` | teampass.py:35-39 | construction fails exactly when some category fetch is not 200, and then with `get_items`' error; otherwise the client holds the configuration and the fetched index, whose keys are distinct and in first-occurrence order |
| `Teampass.PassnameOf` | teampass.py:59-60 | the passname of an item starts with its category name followed by `/` |
| `Teampass.CategoryPassnames` | teampass.py:57-60 | one category yields one passname per item, in item order, each `category/label/login` |
| `Teampass.Passnames` | teampass.py:54-61 | there are as many passnames as items summed over all categories |
| `Teampass.PassnameAt` | teampass.py:54-61 | item j of category c has its passname `category/label/login` at position (items in earlier categories) + j, so entries come in category order and then item order |
| `Teampass.PassnameSource` | teampass.py:54-61 | every position of the passname list falls in the block of some category, and the entry there is the passname of some item j of some category c |
| `Teampass.GetPassnames` | teampass.py:54-61 | the nested loop that appends to `pass_list` returns exactly `Passnames` of the index |
| `Teampass.ParsePassname` | teampass.py:74-75 | parsing fails with `IndexError` exactly when the passname has fewer than two `/`; otherwise the three parts contain no `/` |
| `Teampass.ParsePassnameShape` | teampass.py:74-75 | a parsed passname is its three parts joined by `/`, followed by nothing or by further `/`-segments, which are ignored |
| `Teampass.ParseJoined` | teampass.py:93-94 | joining three or more `/`-free segments and parsing the result gives the first three segments |
| `Teampass.ParsePassnameOf` | teampass.py:74-75 | the passname of an item whose category, label and login contain no `/` parses back to exactly those three parts |
| `Teampass.ParseWithRest` | teampass.py:74-75 | `category/label/login` parses to its three parts whatever `/`-segments follow |
| `Teampass.FirstPassword` | teampass.py:76-78 | returns `None` exactly when no item has this label and login (the test `Matches` of line 77, which ignores the password); otherwise it returns the `pw` of the first such item in iteration order |
| `Teampass.GetPassword` | teampass.py:73-78 | `IndexError` exactly when there are fewer than three segments; for a parsed passname, `KeyError(category)` when the category is not in the index, and otherwise exactly the first-match search (`FirstPassword`) over that category's items |
| `Teampass.ShowListedPassname` | teampass.py:54-78 | round trip: in an index with distinct keys, looking up any listed item whose category, label and login contain no `/` gives a password, namely that of the first item in its category with the same label and login |
| `Teampass.FinanceScenario` | teampass.py:41-78 | with category "Finance" (id 3) returning one item bank/alice/secret, the only passname is `Finance/bank/alice` and showing it gives `secret` |
| `Teampass.GetFolderId` | teampass.py:63-67 | fails with `NoFolderId` exactly when no configured name equals the folder; otherwise returns the id of the first configured category with that name |
| `Teampass.Filter` | teampass.py:87-90 | every printed name is accepted by the search, and no more names are printed than there are passnames |
| `Teampass.FilterMembers` | teampass.py:87-90 | a name is printed exactly when it is in the passname list and the search accepts it |
| `Teampass.FilterAppend` | teampass.py:87-90 | filtering keeps order: filtering a concatenation gives the concatenation of the filtered parts |
| `Teampass.FilterAll` | teampass.py:87-90 | a pattern that every passname matches prints the whole list |
| `Teampass.FindPassword` | teampass.py:87-90 | the loop prints exactly the filtered `get_passnames()` list, in order |
| `Teampass.AddItemPathJoin` | teampass.py:96-102 | the path of the add-item request is label, password, an empty field, folder id and login joined by `;` |
| `Teampass.AddItemUrl` | teampass.py:96-102 | the add request is the endpoint and `/add/item/`, then label, password, an empty field, folder id and login joined by `;`, then `?apikey=` and the key, each part recoverable by slicing |
| `Teampass.AddItemUrlFields` | teampass.py:96-102 | the URL is the endpoint, `/add/item/`, the path and `?apikey=` plus the key; when no field contains `;`, the path splits back into exactly the five fields |
| `Teampass.AddItemUrlAmbiguous` | teampass.py:96-102 | the URL format is not injective: moving a `;` from the label into the password gives the same request |
| `Teampass.InsertPassword` | teampass.py:92-107 | `IndexError` exactly when the passname has fewer than three segments; for a parsed `folder/label/login`, `NoFolderId(folder)` when no category has that name, and otherwise the add request with the folder's first configured id, which succeeds exactly when it is answered with 200 and otherwise fails with that status and body |
| `Teampass.InsertPasswordRequest` | teampass.py:92-107 | for `folder/label/login[/...]`, an unknown folder gives `NoFolderId`; otherwise the request is exactly the add-item URL with the folder's first configured id, and a non-200 answer gives its status and body as the error |

## Left out

- HTTP requests (`requests.get`) and JSON decoding are not modelled. The response to each request URL is the parameter `fetch` or `send`, and its body arrives already decoded as items.
- The regular-expression semantics of `re.search` are not modelled. It is the total parameter `search`, so the `re.error` that an invalid pattern raises (teampass.py:89, as soon as there is one passname to test) is not modelled either.
- `generate_password` is not modelled, because it draws random words from a wordlist file. After that it is `InsertPassword` with the generated password.
- `list_passnames`, `show_password`, the clipboard (`pyperclip`), the `getpass` prompt and `print` are I/O. `list` prints `GetPassnames`, one per line. `show` prints or copies the `GetPassword` result.
- Config-file loading, `docopt` parsing and subcommand dispatch are CLI plumbing and are left out.
- Error messages are not formatted. `ValueError` and friends are structured values: `HttpStatus(code, body)`, `NoFolderId(folder)`, `KeyError(key)` and `IndexError`.
- JSON values that are not strings are not modelled, for example a numeric label that `str.format` would render.
- Duplicate keys inside one JSON object are not modelled.
- InsertPassword: the Python method returns `None`. On success the model returns the requested URL, so that contracts can name the request that was sent.

