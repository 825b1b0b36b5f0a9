/** The SpigotMC plugin browser: the query parameters of a search, the
    skipping of malformed result items, the refusal of premium plugins,
    the name a download is saved under, the date guard and the category
    list.

    HTTP responses are inputs (the decoded JSON body, or None for a
    failed request); formatting a timestamp as a local date is an input
    function. */
module Spigot {
  import opened Text
  import opened Json

  // ------------------------------------------------------------- search

  /** The query parameters of `search_plugins`. */
  datatype Params = Params(size: int, sort: string, search: Option<string>, category: Option<string>)

  /** The sort orders the API is asked for by name. */
  predicate KnownSort(sort: string) {
    sort == "downloads" || sort == "rating" || sort == "updated"
  }

  /** `search_plugins`' parameters: at most 100 results, a descending
      sort on a known field (downloads otherwise), and the search text
      and category only when they are non-empty. */
  function SearchParams(query: string, category: Option<string>, sort: string, size: int): (p: Params)
    ensures p.size <= 100 && (size <= 100 ==> p.size == size)
    ensures p.sort == "-downloads" || p.sort == "-rating" || p.sort == "-updated"
    ensures KnownSort(sort) <==> p.sort == "-" + sort
    ensures p.search.Some? <==> query != []
    ensures p.search.Some? ==> p.search.value == query
    ensures p.category.Some? <==> category.Some? && category.value != []
    ensures p.category.Some? ==> p.category == category
  {
    assert ("-" + sort)[1..] == sort;
    Params(if size < 100 then size else 100,
           if KnownSort(sort) then "-" + sort else "-downloads",
           if query != [] then Some(query) else None,
           if category.Some? && category.value != [] then category else None)
  }

  /** A plugin as the browser lists it. */
  datatype Plugin = Plugin(id: string, name: Json, description: Json, author: Json, version: Json,
                           downloads: Json, rating: int, category: Json, premium: Json,
                           updated: string, downloadUrl: string, url: string)

  /** Python's `str()` of a decoded scalar; a list or object prints as
      an empty string here. */
  function PyStr(j: Json): string {
    match j
    case JNull => "None"
    case JBool(b) => if b then "True" else "False"
    case JInt(i) => IntToString(i)
    case JStr(s) => s
    case JArr(_) => ""
    case JObj(_) => ""
  }

  /** `float(x)` on a decoded value: numbers and booleans convert, a
      string converts when it holds an integer; anything else raises. */
  function PyFloat(j: Json): Option<int> {
    match j
    case JInt(i) => Some(i)
    case JBool(b) => Some(if b then 1 else 0)
    case JStr(s) => PyInt(s)
    case _ => None
  }

  /** `d.get(key, {})` is something `.get` can be called on. */
  predicate NestedOk(d: map<string, Json>, key: string) {
    key !in d || d[key].JObj?
  }

  /** `d.get(key, {}).get(name, default)`: None where the first lookup
      gives something other than an object, on which `.get` raises. */
  function Nested(d: map<string, Json>, key: string, name: string, default: Json): (r: Option<Json>)
    ensures r.Some? <==> NestedOk(d, key)
    ensures key !in d ==> r == Some(default)
  {
    var inner := Get(d, key, JObj(map[]));
    if inner.JObj? then Some(Get(inner.fields, name, default)) else None
  }

  /** `_format_date`: a positive timestamp (in milliseconds) is shown as
      its local date; anything else, including a value that cannot be
      compared with 0, is "Unknown". `True > 0` holds in Python. */
  function FormatDate(timestamp: Json, localDate: int -> string): (r: string)
    ensures timestamp.JInt? && timestamp.i <= 0 ==> r == "Unknown"
    ensures !(timestamp.JInt? || timestamp.JBool?) ==> r == "Unknown"
  {
    match timestamp
    case JInt(t) => if t > 0 then localDate(t) else "Unknown"
    case JBool(b) => if b then localDate(1) else "Unknown"
    case _ => "Unknown"
  }

  /** An item `search_plugins` can build a plugin from: an object whose
      author, version, rating and category (where present) are objects,
      and whose average rating converts to a number. */
  predicate Buildable(item: Json) {
    && item.JObj?
    && NestedOk(item.fields, "author") && NestedOk(item.fields, "version")
    && NestedOk(item.fields, "rating") && NestedOk(item.fields, "category")
    && PyFloat(Nested(item.fields, "rating", "average", JInt(0)).value).Some?
  }

  /** One item of the search results, or None when building it raises.
      A built plugin keeps the item's name and premium flag (default
      False), and both of its links carry the item's id. */
  function ParseItem(item: Json, localDate: int -> string): (r: Option<Plugin>)
    ensures r.Some? <==> Buildable(item)
    ensures r.Some? ==> (
      && r.value.name == Get(item.fields, "name", JStr("Unknown"))
      && r.value.premium == Get(item.fields, "premium", JBool(false))
      && r.value.rating == PyFloat(Nested(item.fields, "rating", "average", JInt(0)).value).value)
    ensures r.Some? ==> (
      var id := PyStr(Get(item.fields, "id", JNull));
      && r.value.url == "https://www.spigotmc.org/resources/" + id
      && r.value.downloadUrl == "https://api.spiget.org/v2/resources/" + id + "/download")
  {
    if !item.JObj? then None
    else
      var d := item.fields;
      var author := Nested(d, "author", "name", JStr("Unknown"));
      var version := Nested(d, "version", "name", JStr("Unknown"));
      var average := Nested(d, "rating", "average", JInt(0));
      var category := Nested(d, "category", "name", JStr("General"));
      if author.None? || version.None? || average.None? || category.None? then None
      else match PyFloat(average.value)
        case None => None
        case Some(rating) =>
          var id := PyStr(Get(d, "id", JNull));
          Some(Plugin(PyStr(Get(d, "id", JStr(""))), Get(d, "name", JStr("Unknown")), Get(d, "tag", JStr("")),
                      author.value, version.value, Get(d, "downloads", JInt(0)), rating, category.value,
                      Get(d, "premium", JBool(false)), FormatDate(Get(d, "updateDate", JInt(0)), localDate),
                      "https://api.spiget.org/v2/resources/" + id + "/download",
                      "https://www.spigotmc.org/resources/" + id))
  }

  /** The plugins of the items that could be built, in order. */
  function ParseItems(items: seq<Json>, localDate: int -> string): (r: seq<Plugin>)
    ensures |r| <= |items|
  {
    if items == [] then []
    else
      Listed(ParseItem(items[0], localDate)) + ParseItems(items[1..], localDate)
  }

  /** What one item adds to the listing: the plugin, or nothing when the
      item was skipped. */
  function Listed(o: Option<Plugin>): (r: seq<Plugin>)
    ensures |r| <= 1
    ensures r == [] <==> o.None?
  {
    match o
    case None => []
    case Some(p) => [p]
  }

  /** `search_plugins` on the decoded body: iterating anything but a list
      yields nothing that can be built, and a failed request gives no
      results; the count is always the number of plugins. */
  function SearchResults(body: Option<Json>, localDate: int -> string): (r: (seq<Plugin>, int))
    ensures r.1 == |r.0|
    ensures body.None? || !body.value.JArr? ==> r.0 == []
    ensures body.Some? && body.value.JArr? ==> |r.0| <= |body.value.items|
    ensures body.Some? && body.value.JArr? ==> r.0 == ParseItems(body.value.items, localDate)
  {
    if body.Some? && body.value.JArr? then
      var plugins := ParseItems(body.value.items, localDate);
      (plugins, |plugins|)
    else ([], 0)
  }

  /** Results of two runs of items are the results of each, in order. */
  lemma {:induction false} ParseItemsAppend(a: seq<Json>, b: seq<Json>, localDate: int -> string)
    ensures ParseItems(a + b, localDate) == ParseItems(a, localDate) + ParseItems(b, localDate)
    decreases |a|
  {
    if a == [] {
      assert a + b == b;
    } else {
      assert (a + b)[0] == a[0];
      assert (a + b)[1..] == a[1..] + b;
      ParseItemsAppend(a[1..], b, localDate);
    }
  }

  /** Only malformed items are skipped: when every item can be built,
      every item is listed. */
  lemma {:induction false} ParseItemsKeepsWellFormed(items: seq<Json>, localDate: int -> string)
    requires forall i :: 0 <= i < |items| ==> ParseItem(items[i], localDate).Some?
    ensures |ParseItems(items, localDate)| == |items|
    ensures forall i :: 0 <= i < |items| ==> ParseItems(items, localDate)[i] == ParseItem(items[i], localDate).value
    decreases |items|
  {
    if items != [] {
      var tail := items[1..];
      forall i | 0 <= i < |tail| ensures ParseItem(tail[i], localDate).Some? {
        assert tail[i] == items[i + 1];
      }
      ParseItemsKeepsWellFormed(tail, localDate);
      ParseItemsOfBuilt(items, localDate);
      var listed := ParseItems(items, localDate);
      forall i | 0 <= i < |items| ensures listed[i] == ParseItem(items[i], localDate).value {
        if i > 0 {
          assert items[i] == tail[i - 1];
        }
      }
    }
  }

  lemma ParseItemsOfBuilt(items: seq<Json>, localDate: int -> string)
    requires items != [] && ParseItem(items[0], localDate).Some?
    ensures ParseItems(items, localDate) == [ParseItem(items[0], localDate).value] + ParseItems(items[1..], localDate)
  {
  }

  /** An item whose nested fields are not objects is skipped. */
  lemma MalformedItemSkipped(item: Json, localDate: int -> string)
    requires item.JObj? && "author" in item.fields && !item.fields["author"].JObj?
    ensures ParseItems([item], localDate) == []
  {
  }

  // ------------------------------------------------------------ download

  /** The end of the line that starts at or after `i`. */
  function LineEnd(s: string, i: nat): (e: nat)
    requires i <= |s|
    ensures i <= e <= |s| && '\n' !in s[i..e]
    ensures e < |s| ==> s[e] == '\n'
    decreases |s| - i
  {
    if i == |s| || s[i] == '\n' then i
    else
      var e := LineEnd(s, i + 1);
      assert s[i..e] == [s[i]] + s[i + 1..e];
      e
  }

  /** A match of `filename=(.+)` can start at `j`: "filename=" followed by
      a character other than a line break. */
  predicate NameAt(cd: string, j: nat) {
    OccursAt(cd, "filename=", j) && j + 9 < |cd| && cd[j + 9] != '\n'
  }

  /** `name` is the rest of the line after the "filename=" at `j`. */
  predicate RestOfLine(cd: string, j: nat, name: string) {
    && j + 9 + |name| <= |cd|
    && cd[j + 9..j + 9 + |name|] == name && '\n' !in name
    && (j + 9 + |name| == |cd| || cd[j + 9 + |name|] == '\n')
  }

  /** Where the first match of `filename=(.+)` at or after `i` starts. */
  function NameStart(cd: string, i: nat): (j: Option<nat>)
    ensures j.Some? ==> i <= j.value && NameAt(cd, j.value)
    ensures j.Some? ==> forall k :: i <= k < j.value ==> !NameAt(cd, k)
    ensures j.None? ==> forall k :: i <= k ==> !NameAt(cd, k)
    decreases |cd| - i
  {
    if i + 9 >= |cd| then None
    else if NameAt(cd, i) then Some(i)
    else NameStart(cd, i + 1)
  }

  /** `re.findall('filename=(.+)', cd)[0]` searched from position `i`:
      the first "filename=" followed by at least one character on its
      line, and the rest of that line; None when there is no such
      "filename=". */
  function FirstFileNameFrom(cd: string, i: nat): (r: Option<string>)
    ensures r.None? <==> forall j :: i <= j ==> !NameAt(cd, j)
    ensures r.Some? ==> r.value != [] && NameStart(cd, i).Some? && RestOfLine(cd, NameStart(cd, i).value, r.value)
  {
    match NameStart(cd, i)
    case None => None
    case Some(j) =>
      var e := LineEnd(cd, j + 9);
      assert RestOfLine(cd, j, cd[j + 9..e]);
      Some(cd[j + 9..e])
  }

  /** The `.jar` rule: the extension is added unless already there. */
  function WithJar(name: string): (r: string)
    ensures EndsWith(r, ".jar")
    ensures EndsWith(name, ".jar") ==> r == name
    ensures !EndsWith(name, ".jar") ==> r == name + ".jar"
  {
    if EndsWith(name, ".jar") then name
    else
      assert (name + ".jar")[|name|..] == ".jar";
      name + ".jar"
  }

  /** The name `download_plugin` saves under, as written: the header's
      file name with quotes stripped when it has one, else the plugin
      name; then the `.jar` rule. */
  function DownloadFileNameAsWritten(pluginName: string, disposition: Option<string>): (r: string)
    ensures EndsWith(r, ".jar")
    ensures (disposition.None? || FirstFileNameFrom(disposition.value, 0).None?) ==>
      r == WithJar(pluginName + ".jar")
    ensures disposition.Some? && FirstFileNameFrom(disposition.value, 0).Some? ==>
      r == WithJar(StripChar(FirstFileNameFrom(disposition.value, 0).value, '"'))
  {
    var header := if disposition.Some? then FirstFileNameFrom(disposition.value, 0) else None;
    WithJar(if header.Some? then StripChar(header.value, '"') else pluginName + ".jar")
  }

  /** A header can name a file outside the plugin folder. */
  lemma HeaderNameEscapesFolder()
    ensures DownloadFileNameAsWritten("x", Some("filename=../a")) == "../a.jar"
  {
    var cd := "filename=../a";
    assert cd[0..9] == "filename=";
    assert LineEnd(cd, 9) == 13 by {
      assert LineEnd(cd, 13) == 13;
      assert LineEnd(cd, 12) == 13;
      assert LineEnd(cd, 11) == 13;
      assert LineEnd(cd, 10) == 13;
    }
    assert cd[9] == '.' && cd[9..13] == "../a";
    assert FirstFileNameFrom(cd, 0) == Some("../a");
    assert StripChar("../a", '"') == "../a";
  }

  /** The name kept from the header: its last path component, so the
      file always lands in the destination folder. */
  function BaseName(name: string): (r: string)
    ensures '/' !in r && '\\' !in r
  {
    var afterSlash := AfterLast(name, '/');
    var r := AfterLast(afterSlash, '\\');
    assert EndsWith(afterSlash, r);
    assert forall k :: 0 <= k < |r| ==> r[k] == afterSlash[|afterSlash| - |r| + k];
    r
  }

  /** The download name with the header's directory part dropped: ends
      in ".jar" and names a file directly inside the destination. */
  function DownloadFileName(pluginName: string, disposition: Option<string>): (r: string)
    ensures EndsWith(r, ".jar")
    ensures (disposition.None? || FirstFileNameFrom(disposition.value, 0).None?) ==>
      r == WithJar(pluginName + ".jar")
    ensures disposition.Some? && FirstFileNameFrom(disposition.value, 0).Some? ==>
      r == WithJar(BaseName(StripChar(FirstFileNameFrom(disposition.value, 0).value, '"')))
  {
    var header := if disposition.Some? then FirstFileNameFrom(disposition.value, 0) else None;
    WithJar(if header.Some? then BaseName(StripChar(header.value, '"')) else pluginName + ".jar")
  }

  /** A header's name never leads outside the destination folder. */
  lemma HeaderNameStaysInFolder(pluginName: string, cd: string)
    requires FirstFileNameFrom(cd, 0).Some?
    ensures '/' !in DownloadFileName(pluginName, Some(cd))
  {
    var base := BaseName(StripChar(FirstFileNameFrom(cd, 0).value, '"'));
    assert DownloadFileName(pluginName, Some(cd)) == WithJar(base);
    WithJarNoSlash(base);
  }

  /** The `.jar` rule adds no path separator. */
  lemma WithJarNoSlash(name: string)
    requires '/' !in name
    ensures '/' !in WithJar(name)
  {
    var r := WithJar(name);
    if !EndsWith(name, ".jar") {
      assert forall k :: 0 <= k < |r| ==> r[k] == if k < |name| then name[k] else ".jar"[k - |name|];
    }
  }

  /** The `.jar` rule is idempotent. */
  lemma WithJarIdempotent(name: string)
    ensures WithJar(WithJar(name)) == WithJar(name)
  {
  }

  /** `download_plugin` as written: a premium plugin is refused before any
      request; otherwise the file is saved in the destination under the
      name the response header gives, or under the plugin's name. */
  function DownloadTarget(plugin: Plugin, disposition: Option<string>): (r: Option<string>)
    ensures r.None? <==> Truthy(plugin.premium)
    ensures r.Some? ==> EndsWith(r.value, ".jar")
    ensures r.Some? ==> r.value == DownloadFileNameAsWritten(PyStr(plugin.name), disposition)
  {
    if Truthy(plugin.premium) then None else Some(DownloadFileNameAsWritten(PyStr(plugin.name), disposition))
  }

  /** `download_plugin` with the corrected name rule: the same refusal;
      a name taken from the header stays in the destination folder, and
      without one the target is the one `download_plugin` picks. */
  function DownloadTargetIntended(plugin: Plugin, disposition: Option<string>): (r: Option<string>)
    ensures r.None? <==> Truthy(plugin.premium)
    ensures r.Some? ==> EndsWith(r.value, ".jar")
    ensures r.Some? ==> r.value == DownloadFileName(PyStr(plugin.name), disposition)
    ensures r.Some? && disposition.Some? && FirstFileNameFrom(disposition.value, 0).Some? ==> '/' !in r.value
    ensures (disposition.None? || FirstFileNameFrom(disposition.value, 0).None?) ==>
      r == DownloadTarget(plugin, disposition)
  {
    if Truthy(plugin.premium) then None
    else if disposition.Some? && FirstFileNameFrom(disposition.value, 0).Some? then
      HeaderNameStaysInFolder(PyStr(plugin.name), disposition.value);
      Some(DownloadFileName(PyStr(plugin.name), disposition))
    else Some(DownloadFileName(PyStr(plugin.name), disposition))
  }

  // ----------------------------------------------------------- categories

  /** The built-in category list used when the request or its body fails. */
  const FallbackCategories: seq<Json> := [
    JStr("Admin Tools"), JStr("Anti-Griefing Tools"), JStr("Chat Related"),
    JStr("Developer Tools"), JStr("Economy"), JStr("Fun"), JStr("General"),
    JStr("Mechanics"), JStr("Miscellaneous"), JStr("Transportation"), JStr("World Management")]

  /** `cat.get('name', '')` for a category object. */
  function CategoryName(item: Json): (name: Json)
    requires item.JObj?
    ensures "name" in item.fields ==> name == item.fields["name"]
    ensures "name" !in item.fields ==> name == JStr("")
  {
    Get(item.fields, "name", JStr(""))
  }

  /** The truthy names of a list of category objects, in order. */
  function CategoryNames(items: seq<Json>): (r: seq<Json>)
    requires forall i :: 0 <= i < |items| ==> items[i].JObj?
    ensures forall i :: 0 <= i < |r| ==> Truthy(r[i])
    ensures forall i :: 0 <= i < |items| && Truthy(CategoryName(items[i])) ==> CategoryName(items[i]) in r
    ensures |r| <= |items|
  {
    if items == [] then []
    else
      var name := CategoryName(items[0]);
      var rest := CategoryNames(items[1..]);
      assert forall i :: 1 <= i < |items| ==> items[i] == items[1..][i - 1];
      if Truthy(name) then [name] + rest else rest
  }

  /** The names of two runs of entries are the names of each, in order. */
  lemma {:induction false} CategoryNamesAppend(a: seq<Json>, b: seq<Json>)
    requires forall i :: 0 <= i < |a| ==> a[i].JObj?
    requires forall i :: 0 <= i < |b| ==> b[i].JObj?
    ensures CategoryNames(a + b) == CategoryNames(a) + CategoryNames(b)
    decreases |a|
  {
    if a == [] {
      assert a + b == b;
    } else {
      assert (a + b)[0] == a[0];
      assert (a + b)[1..] == a[1..] + b;
      CategoryNamesAppend(a[1..], b);
    }
  }

  /** `get_categories`: the names of the categories that have one; the
      built-in list when the request fails or any entry is not an object
      (`.get` raises on it). An empty body yields no categories. */
  function Categories(body: Option<Json>): (r: seq<Json>)
    ensures forall i :: 0 <= i < |r| ==> Truthy(r[i])
    ensures body.None? ==> r == FallbackCategories
    ensures body.Some? && body.value.JArr? && (forall i :: 0 <= i < |body.value.items| ==> body.value.items[i].JObj?) ==>
      r == CategoryNames(body.value.items)
    ensures body.Some? && body.value.JArr? && (exists i :: 0 <= i < |body.value.items| && !body.value.items[i].JObj?) ==>
      r == FallbackCategories
  {
    match body
    case None => FallbackCategories
    case Some(JArr(items)) =>
      if forall i :: 0 <= i < |items| ==> items[i].JObj? then CategoryNames(items) else FallbackCategories
    case Some(JObj(m)) => if m == map[] then [] else FallbackCategories
    case Some(JStr(s)) => if s == [] then [] else FallbackCategories
    case Some(_) => FallbackCategories
  }

  /** A category without a name is left out, and one with a name is kept. */
  lemma CategoryNamesOfOne(fields: map<string, Json>)
    ensures CategoryNames([JObj(fields)]) == if "name" in fields && Truthy(fields["name"]) then [fields["name"]] else []
  {
  }
}
