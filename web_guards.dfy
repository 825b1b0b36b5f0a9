/** The request guards of the web panel: the path sanitiser used by the
    file routes, the server-name check, the field check of the create
    route, and the order of a directory listing.

    A path is its list of components. `resolve()` is lexical here: empty
    and "." components vanish, and symbolic links are not part of this
    model. */
module WebPanel {
  import opened Text
  import opened Json

  // ------------------------------------------------------ secure_path_join

  /** The outcome of `secure_path_join`: a path inside the base, or the
      ValueError it raises. */
  datatype Joined = Inside(path: seq<string>) | Rejected

  /** Path components after lexical normalisation: empty and "." parts
      vanish. */
  function Clean(parts: seq<string>): (r: seq<string>)
    ensures |r| <= |parts|
    ensures forall i :: 0 <= i < |r| ==> r[i] != [] && r[i] != "."
    ensures forall i :: 0 <= i < |r| ==> r[i] in parts
    ensures (forall i :: 0 <= i < |parts| ==> parts[i] != [] && parts[i] != ".") ==> r == parts
  {
    if parts == [] then []
    else if parts[0] == [] || parts[0] == "." then Clean(parts[1..])
    else [parts[0]] + Clean(parts[1..])
  }

  /** What the sanitiser rejects outright: any ".." anywhere (even inside
      a name such as "a..b"), a backslash or a NUL character. */
  predicate Dangerous(u: string) {
    Contains(u, "..") || '\\' in u || '\0' in u
  }

  /** `secure_path_join(base, user)`. The input is stripped; an empty
      result or "/" gives the base itself; otherwise leading slashes are
      removed, dangerous text is rejected, and the rest is joined below
      the base. The containment check is kept; it cannot fail here. */
  function SecurePathJoin(base: seq<string>, user: string): (r: Joined)
    ensures Strip(user) == [] || Strip(user) == "/" ==> r == Inside(base)
    ensures r.Rejected? <==> (Strip(user) != [] && Strip(user) != "/" &&
                              Dangerous(LStripChar(Strip(user), '/')))
    ensures r.Inside? ==> |base| <= |r.path| && r.path[..|base|] == base
  {
    JoinStripped(base, Strip(user))
  }

  /** The sanitiser after the input has been stripped. */
  function JoinStripped(base: seq<string>, u: string): (r: Joined)
    ensures u == [] || u == "/" ==> r == Inside(base)
    ensures r.Rejected? <==> (u != [] && u != "/" && Dangerous(LStripChar(u, '/')))
    ensures r.Inside? ==> |base| <= |r.path| && r.path[..|base|] == base
  {
    if u == [] || u == "/" then Inside(base)
    else
      var rel := LStripChar(u, '/');
      if Dangerous(rel) || StartsWith(rel, "/") then Rejected
      else
        var full := base + Clean(SplitOn(rel, '/'));
        if full[..|base|] == base then Inside(full) else Rejected
  }

  /** Every component added below the base is a plain name: not empty,
      not ".", without '/' and without "..". */
  lemma JoinedComponentsArePlain(base: seq<string>, user: string)
    requires SecurePathJoin(base, user).Inside?
    ensures var p := SecurePathJoin(base, user).path;
      forall i :: |base| <= i < |p| ==> p[i] != [] && p[i] != "." && '/' !in p[i] && !Contains(p[i], "..")
  {
    var u := Strip(user);
    if u != [] && u != "/" {
      var rel := LStripChar(u, '/');
      NoDotDotInParts(rel);
    }
  }

  /** A part of `s.split('/')` contains ".." only if `s` does. */
  lemma {:induction false} NoDotDotInParts(s: string)
    requires !Contains(s, "..")
    ensures forall i :: 0 <= i < |SplitOn(s, '/')| ==> !Contains(SplitOn(s, '/')[i], "..")
    decreases |s|
  {
    if '/' in s {
      var k := IndexOf(s, '/');
      assert s[k + 1..|s|] == s[k + 1..];
      if Contains(s[k + 1..], "..") {
        ContainsSlice(s, "..", k + 1, |s|);
      }
      if Contains(s[..k], "..") {
        assert s[0..k] == s[..k];
        ContainsSlice(s, "..", 0, k);
      }
      NoDotDotInParts(s[k + 1..]);
    }
  }

  /** A well-formed relative path — clean components without whitespace,
      ".." or forbidden characters — is joined as exactly those components
      below the base. */
  lemma JoinCleanPath(base: seq<string>, parts: seq<string>)
    requires parts != []
    requires forall i :: 0 <= i < |parts| ==> parts[i] != [] && parts[i] != "." && '/' !in parts[i]
    requires forall i, j :: 0 <= i < |parts| && 0 <= j < |parts[i]| ==> !IsSpace(parts[i][j])
    requires !Dangerous(Join(parts, '/'))
    ensures SecurePathJoin(base, Join(parts, '/')) == Inside(base + parts)
  {
    var s := Join(parts, '/');
    JoinEnds(parts, '/');
    StripTrimmed(s);
    assert s[0] != '/' by {
      assert s[0] == parts[0][0];
    }
    SplitOnJoin(parts, '/');
    JoinRelative(base, s, parts);
  }

  /** A relative path without leading slash or dangerous text is joined
      as its clean components. */
  lemma JoinRelative(base: seq<string>, rel: string, parts: seq<string>)
    requires rel != [] && rel[0] != '/' && !Dangerous(rel) && Strip(rel) == rel
    requires SplitOn(rel, '/') == parts
    requires forall i :: 0 <= i < |parts| ==> parts[i] != [] && parts[i] != "."
    ensures SecurePathJoin(base, rel) == Inside(base + parts)
  {
    assert LStripChar(rel, '/') == rel;
    assert rel != "/";
    assert !StartsWith(rel, "/");
    assert Clean(parts) == parts;
    assert (base + parts)[..|base|] == base;
  }

  /** The "starts with '/'" test after removing leading slashes never
      fires; only `Dangerous` can reject. */
  lemma LeadingSlashTestIsDead(u: string)
    ensures !StartsWith(LStripChar(u, '/'), "/")
  {
  }

  // --------------------------------------------------- validate_server_name

  predicate NameChar(c: char) {
    ('A' <= c <= 'Z') || ('a' <= c <= 'z') || ('0' <= c <= '9') || c == '_' || c == '-'
  }

  /** One or more characters of `[A-Za-z0-9_-]`. */
  predicate NameRun(s: string) {
    s != [] && forall i :: 0 <= i < |s| ==> NameChar(s[i])
  }

  /** `re.match(r'^[A-Za-z0-9_-]+$', s)`: Python's `$` also matches just
      before a final newline. */
  predicate PatternMatchesAsWritten(s: string) {
    NameRun(s) || (s != [] && s[|s| - 1] == '\n' && NameRun(s[..|s| - 1]))
  }

  /** `validate_server_name` as written: the pattern, then the registry. */
  function ValidateServerNameAsWritten(name: string, registered: set<string>): (ok: bool)
    ensures ok ==> name in registered && name != []
    ensures ok ==> forall i :: 0 <= i < |name| - 1 ==> NameChar(name[i])
  {
    PatternMatchesAsWritten(name) && name in registered
  }

  /** A registered name with a trailing newline passes the check; the web
      create route does not validate names, so such a name can be
      registered. */
  lemma TrailingNewlineAccepted()
    ensures ValidateServerNameAsWritten("mc\n", {"mc\n"})
    ensures !ValidateServerName("mc\n", {"mc\n"})
  {
    var s := "mc\n";
    assert s[..|s| - 1] == "mc";
    assert !NameChar(s[2]);
  }

  /** `validate_server_name` as intended: the whole name is one run of
      `[A-Za-z0-9_-]` and it is registered. */
  function ValidateServerName(name: string, registered: set<string>): (ok: bool)
    ensures ok <==> name in registered && NameRun(name)
  {
    name in registered && NameRun(name)
  }

  /** The two checks differ only on names ending in a newline. */
  lemma ValidateAgreesWithoutNewline(name: string, registered: set<string>)
    requires name == [] || name[|name| - 1] != '\n'
    ensures ValidateServerNameAsWritten(name, registered) == ValidateServerName(name, registered)
  {
  }

  // ------------------------------------------------------ api_create_server

  /** The fields a create request must carry, in the order they are checked. */
  const RequiredFields: seq<string> :=
    ["name", "version", "min_ram", "max_ram", "storage_path", "port", "storage_limit"]

  /** How `api_create_server` answers before creating anything. */
  datatype CreateCheck = MissingField(field: string) | AlreadyExists | Unhashable | Proceed

  /** The required-field loop and the duplicate check. A name that is a
      list or an object cannot be looked up in the registry (TypeError);
      any other non-string name is never registered. */
  function CheckCreateRequest(data: map<string, Json>, registered: set<string>): (r: CreateCheck)
    ensures r.MissingField? ==> exists i :: (0 <= i < |RequiredFields| && RequiredFields[i] == r.field &&
      r.field !in data && forall j :: 0 <= j < i ==> RequiredFields[j] in data)
    ensures !r.MissingField? <==> forall f :: f in RequiredFields ==> f in data
    ensures r.AlreadyExists? <==> ((forall f :: f in RequiredFields ==> f in data) &&
      data["name"].JStr? && data["name"].s in registered)
    ensures r == Proceed ==> forall f :: f in RequiredFields ==> f in data
  {
    match FirstMissing(RequiredFields, data)
    case Some(i) => MissingField(RequiredFields[i])
    case None =>
      assert RequiredFields[0] == "name";
      match data["name"]
      case JStr(s) => if s in registered then AlreadyExists else Proceed
      case JArr(_) => Unhashable
      case JObj(_) => Unhashable
      case _ => Proceed
  }

  // ------------------------------------------------------ listing order

  /** One entry of a directory listing. */
  datatype Entry = Entry(name: string, isDir: bool, size: int)

  /** Python's string order: code point by code point, a prefix first. */
  predicate StrLe(a: string, b: string)
    decreases |a|
  {
    a == [] || (b != [] && (a[0] < b[0] || (a[0] == b[0] && StrLe(a[1..], b[1..]))))
  }

  lemma {:induction false} StrLeTotal(a: string, b: string)
    ensures StrLe(a, b) || StrLe(b, a)
    decreases |a|
  {
    if a != [] && b != [] && a[0] == b[0] {
      StrLeTotal(a[1..], b[1..]);
    }
  }

  lemma {:induction false} StrLeTrans(a: string, b: string, c: string)
    requires StrLe(a, b) && StrLe(b, c)
    ensures StrLe(a, c)
    decreases |a|
  {
    if a != [] && b != [] && c != [] && a[0] == b[0] && b[0] == c[0] {
      StrLeTrans(a[1..], b[1..], c[1..]);
    }
  }

  /** The sort key `(type == 'file', name.lower())`: directories first,
      then case-insensitive name order. */
  predicate EntryLe(x: Entry, y: Entry) {
    (x.isDir && !y.isDir) || (x.isDir == y.isDir && StrLe(Lower(x.name), Lower(y.name)))
  }

  lemma EntryLeTotal(x: Entry, y: Entry)
    ensures EntryLe(x, y) || EntryLe(y, x)
  {
    StrLeTotal(Lower(x.name), Lower(y.name));
  }

  lemma EntryLeTrans(x: Entry, y: Entry, z: Entry)
    requires EntryLe(x, y) && EntryLe(y, z)
    ensures EntryLe(x, z)
  {
    if x.isDir == y.isDir && y.isDir == z.isDir {
      StrLeTrans(Lower(x.name), Lower(y.name), Lower(z.name));
    }
  }

  predicate SortedListing(s: seq<Entry>) {
    forall i, j :: 0 <= i < j < |s| ==> EntryLe(s[i], s[j])
  }

  /** Insert `e` before the first entry that sorts strictly after it, as
      a stable sort places it. */
  function Insert(e: Entry, s: seq<Entry>): (r: seq<Entry>)
    requires SortedListing(s)
    ensures SortedListing(r)
    ensures multiset(r) == multiset(s) + multiset{e}
  {
    if s == [] then [e]
    else if EntryLe(s[0], e) then
      var rest := Insert(e, s[1..]);
      LowerBoundOfInsertion(s[0], e, s[1..], rest);
      assert s == [s[0]] + s[1..];
      [s[0]] + rest
    else
      EntryLeTotal(e, s[0]);
      forall k | 0 <= k < |s| ensures EntryLe(e, s[k]) {
        if k > 0 { EntryLeTrans(e, s[0], s[k]); }
      }
      [e] + s
  }

  /** An entry below `e` and below all of `s` is below every entry of a
      sequence holding just those. */
  lemma LowerBoundOfInsertion(x: Entry, e: Entry, s: seq<Entry>, r: seq<Entry>)
    requires multiset(r) == multiset(s) + multiset{e}
    requires EntryLe(x, e) && forall k :: 0 <= k < |s| ==> EntryLe(x, s[k])
    ensures forall k :: 0 <= k < |r| ==> EntryLe(x, r[k])
  {
    forall k | 0 <= k < |r| ensures EntryLe(x, r[k]) {
      assert r[k] in multiset(s) + multiset{e};
      if r[k] != e {
        assert r[k] in s;
      }
    }
  }

  /** `files.sort(key=...)`: the listing in directories-first,
      case-insensitive order, with the same entries. */
  function SortListing(entries: seq<Entry>): (r: seq<Entry>)
    ensures SortedListing(r)
    ensures multiset(r) == multiset(entries)
  {
    if entries == [] then []
    else
      var rest := SortListing(entries[..|entries| - 1]);
      assert entries == entries[..|entries| - 1] + [entries[|entries| - 1]];
      Insert(entries[|entries| - 1], rest)
  }

  /** In a sorted listing no file comes before a directory. */
  lemma DirectoriesFirst(s: seq<Entry>, i: nat, j: nat)
    requires SortedListing(s) && i < j < |s|
    requires s[j].isDir
    ensures s[i].isDir
  {
  }
}
