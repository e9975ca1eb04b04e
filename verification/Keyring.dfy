/**
 The registry keyring: credentials by registry endpoint, with an index of the
 endpoints in descending order, so that more specific endpoints are tried first.

 URL parsing and shell globbing are libraries; a keyring is given them as
 functions. Iterating over a Go map has no fixed order: `Add` gets the entries
 in the order of the iteration.
 */
module Keyring {
  import opened Wrappers
  import opened Orders
  import opened StableSort

  datatype Credential =
    | FromProvider(provider: nat)
    | Static(username: string, password: string, email: string)

  datatype Url = Url(host: string, path: string)

  datatype Library = Library(
    parse: string -> Option<Url>,
    splitHostPort: string -> Option<(string, string)>,
    glob: (string, string) -> Option<bool>)

  predicate HasPrefix(s: string, prefix: string) {
    prefix <= s
  }

  predicate HasScheme(loc: string) {
    HasPrefix(loc, "https://") || HasPrefix(loc, "http://")
  }

  /** The index key of a configured location, if it is a URL: scheme, a leading
      /v1/ or /v2/ and a bare slash do not count. */
  function KeyOf(lib: Library, loc: string): Option<string> {
    match lib.parse(if HasScheme(loc) then loc else "https://" + loc)
    case None => None
    case Some(url) =>
      var path := if HasPrefix(url.path, "/v2/") || HasPrefix(url.path, "/v1/") then url.path[3..] else url.path;
      Some(if |path| > 0 && path != "/" then url.host + path else url.host)
  }

  /** Locations with either scheme or none, with either API version in front of
      the path or none, are one and the same key: the host and the bare path. */
  lemma KeyIgnoresSchemeAndVersion(lib: Library, scheme: string, loc: string, host: string, version: string,
                                   path: string)
    requires scheme in {"", "https://", "http://"} && !HasScheme(loc)
    requires version in {"", "/v1", "/v2"}
    requires if version == "" then !HasPrefix(path, "/v1/") && !HasPrefix(path, "/v2/") else HasPrefix(path, "/")
    requires lib.parse((if scheme == "" then "https://" else scheme) + loc) == Some(Url(host, version + path))
    ensures KeyOf(lib, scheme + loc) == Some(host + if path == "/" then "" else path)
  {
    assert "" + loc == loc && "" + path == path && host + "" == host;
    assert version != "" ==> (version + path)[3..] == path && (version + path)[..4] == version + "/";
  }

  // -------------------------------------------------------------- matching

  /** strings.Split(s, sep) for a one-character separator */
  function Split(s: string, sep: char): (parts: seq<string>)
    ensures parts != []
  {
    if s == [] then [""]
    else
      var rest := Split(s[1..], sep);
      if s[0] == sep then [""] + rest else [[s[0]] + rest[0]] + rest[1..]
  }

  function Join(parts: seq<string>, sep: char): string
    requires parts != []
  {
    if |parts| == 1 then parts[0] else parts[0] + [sep] + Join(parts[1..], sep)
  }

  /** Splitting loses nothing, and no part contains the separator. */
  lemma {:induction false} SplitJoins(s: string, sep: char)
    ensures Join(Split(s, sep), sep) == s
    ensures forall i :: 0 <= i < |Split(s, sep)| ==> sep !in Split(s, sep)[i]
  {
    if s != [] {
      var rest := Split(s[1..], sep);
      SplitJoins(s[1..], sep);
      assert s == [s[0]] + s[1..];
      if s[0] == sep {
        assert ([""] + rest)[1..] == rest;
      } else {
        var parts := [[s[0]] + rest[0]] + rest[1..];
        assert parts[1..] == rest[1..];
        forall i | 0 <= i < |parts| ensures sep !in parts[i] { assert sep !in rest[i]; }
      }
    }
  }

  function SplitUrl(lib: Library, url: Url): (seq<string>, string) {
    match lib.splitHostPort(url.host)
    case Some((host, port)) => (Split(host, '.'), port)
    case None => (Split(url.host, '.'), "")
  }

  /** The same port, as many host parts, and a path that is a prefix of the target's. */
  predicate SameShape(lib: Library, glob: Url, target: Url) {
    && SplitUrl(lib, glob).1 == SplitUrl(lib, target).1
    && |SplitUrl(lib, glob).0| == |SplitUrl(lib, target).0|
    && HasPrefix(target.path, glob.path)
  }

  /** The first `n` parts are matched by their globs. */
  ghost predicate PartsMatch(lib: Library, globs: seq<string>, parts: seq<string>, n: nat) {
    n <= |globs| && n <= |parts| && forall i :: 0 <= i < n ==> lib.glob(globs[i], parts[i]) == Some(true)
  }

  ghost predicate UrlsAgree(lib: Library, glob: Url, target: Url) {
    SameShape(lib, glob, target) &&
    PartsMatch(lib, SplitUrl(lib, glob).0, SplitUrl(lib, target).0, |SplitUrl(lib, glob).0|)
  }

  /** urlsMatch: its answer, or None for an error, which only a bad glob after
      matching parts can cause. */
  method UrlsMatch(lib: Library, glob: Url, target: Url) returns (matched: Option<bool>)
    ensures matched == Some(true) <==> UrlsAgree(lib, glob, target)
    ensures matched == None <==>
      SameShape(lib, glob, target) &&
      var globs, parts := SplitUrl(lib, glob).0, SplitUrl(lib, target).0;
      exists k :: 0 <= k < |globs| && PartsMatch(lib, globs, parts, k) && lib.glob(globs[k], parts[k]) == None
  {
    var (globParts, globPort) := SplitUrl(lib, glob);
    var (targetParts, targetPort) := SplitUrl(lib, target);
    if globPort != targetPort { return Some(false); }
    if |globParts| != |targetParts| { return Some(false); }
    if !HasPrefix(target.path, glob.path) { return Some(false); }
    for k := 0 to |globParts|
      invariant PartsMatch(lib, globParts, targetParts, k)
    {
      var answer := lib.glob(globParts[k], targetParts[k]);
      if answer.None? { return None; }
      if !answer.value { return Some(false); }
    }
    return Some(true);
  }

  /** A URL agrees with itself if its host parts do as globs, and with whatever
      lies below what it agrees with; it never agrees with another port, another
      number of host parts, or a path that does not begin with its own. */
  lemma AgreementIsDownward(lib: Library, glob: Url, target: Url, more: string)
    ensures (forall part :: part in SplitUrl(lib, glob).0 ==> lib.glob(part, part) == Some(true)) ==>
      UrlsAgree(lib, glob, glob)
    ensures UrlsAgree(lib, glob, target) ==> UrlsAgree(lib, glob, target.(path := target.path + more))
    ensures UrlsAgree(lib, glob, target) ==>
      && SplitUrl(lib, glob).1 == SplitUrl(lib, target).1
      && |SplitUrl(lib, glob).0| == |SplitUrl(lib, target).0|
      && exists below :: target.path == glob.path + below
  {
    if UrlsAgree(lib, glob, target) {
      assert target.path == glob.path + target.path[|glob.path|..];
      assert (target.path + more)[..|glob.path|] == target.path[..|glob.path|];
    }
  }

  /** Key and image are URLs without a scheme that agree. */
  ghost predicate Matches(lib: Library, key: string, image: string) {
    var glob, target := lib.parse("https://" + key), lib.parse("https://" + image);
    glob.Some? && target.Some? && UrlsAgree(lib, glob.value, target.value)
  }

  /** urlsMatchStr; Lookup treats an error like no match. */
  method UrlsMatchStr(lib: Library, key: string, image: string) returns (matched: Option<bool>)
    ensures matched == Some(true) <==> Matches(lib, key, image)
    ensures lib.parse("https://" + key).None? || lib.parse("https://" + image).None? ==> matched == None
  {
    var glob := lib.parse("https://" + key);
    if glob.None? { return None; }
    var target := lib.parse("https://" + image);
    if target.None? { return None; }
    matched := UrlsMatch(lib, glob.value, target.value);
  }

  const DEFAULT_REGISTRY_HOST := "index.docker.io"

  predicate ContainsAny(s: string, chars: string) {
    exists i :: 0 <= i < |s| && s[i] in chars
  }

  predicate IsDefaultRegistryMatch(image: string) {
    var parts := Split(image, '/');
    if |parts[0]| == 0 then false
    else if |parts| == 1 then true
    else if parts[0] == "docker.io" || parts[0] == "index.docker.io" then true
    else !ContainsAny(parts[0], ".:")
  }

  lemma {:induction false} FirstPart(s: string, sep: char, n: nat)
    requires n <= |s| && sep !in s[..n] && (n < |s| ==> s[n] == sep)
    ensures Split(s, sep)[0] == s[..n] && (|Split(s, sep)| == 1 <==> n == |s|)
  {
    if s != [] {
      if n > 0 {
        assert s[0] in s[..n];
        assert s[1..][..n - 1] == s[..n][1..];
        FirstPart(s[1..], sep, n - 1);
        assert s[..n] == [s[0]] + s[1..][..n - 1];
      }
    }
  }

  /** Which images come from the default registry, by the name up to the first
      slash at `n`: it is not empty, and it is all there is, or one of the default
      registry's own hosts, or no host at all because it has neither dot nor colon. */
  lemma DefaultRegistryIff(image: string, n: nat)
    requires n <= |image| && '/' !in image[..n] && (n < |image| ==> image[n] == '/')
    ensures IsDefaultRegistryMatch(image) <==>
      && n > 0
      && (n == |image| || image[..n] in {"docker.io", "index.docker.io"} || ('.' !in image[..n] && ':' !in image[..n]))
  {
    FirstPart(image, '/', n);
    assert ".:"[0] == '.' && ".:"[1] == ':';
    var host := image[..n];
    assert ContainsAny(host, ".:") <==> '.' in host || ':' in host by {
      if '.' in host { var i :| 0 <= i < |host| && host[i] == '.'; assert host[i] in ".:"; }
      if ':' in host { var i :| 0 <= i < |host| && host[i] == ':'; assert host[i] in ".:"; }
    }
  }

  // ----------------------------------------------- the brute-force meaning

  /** An entry ever added, under its index key. */
  datatype Added = Added(key: string, cred: Credential)

  function KeyOfAdded(a: Added): string { a.key }

  function Creds(xs: seq<Added>): seq<Credential> {
    seq(|xs|, i requires 0 <= i < |xs| => xs[i].cred)
  }

  /** The keys that match an image. */
  ghost function Hits(lib: Library, image: string): string -> bool {
    (k: string) => Matches(lib, k, image)
  }

  /** The entries whose key is a hit, in the order they were added. */
  function Scan(hit: string -> bool, added: seq<Added>): seq<Added> {
    if added == [] then []
    else (if hit(added[0].key) then [added[0]] else []) + Scan(hit, added[1..])
  }

  /** The meaning of a lookup, by brute force: everything that matches, most
      specific key first, in the order of addition for one key; else the entries
      of the default registry if it applies. */
  ghost function Reference(lib: Library, added: seq<Added>, image: string): (seq<Credential>, bool) {
    var hits := Sort(StringGreater, KeyOfAdded, Scan(Hits(lib, image), added));
    var default := Select(KeyOfAdded, added, DEFAULT_REGISTRY_HOST);
    if hits != [] then (Creds(hits), true)
    else if IsDefaultRegistryMatch(image) && default != [] then (Creds(default), true)
    else ([], false)
  }

  lemma {:induction false} ScanSelects(hit: string -> bool, added: seq<Added>, k: string)
    ensures Select(KeyOfAdded, Scan(hit, added), k) == if hit(k) then Select(KeyOfAdded, added, k) else []
  {
    if added != [] {
      ScanSelects(hit, added[1..], k);
      ScanSelectsStep(hit, added, k);
    }
  }

  lemma ScanSelectsStep(hit: string -> bool, added: seq<Added>, k: string)
    requires added != []
    ensures var a, rest := added[0], Select(KeyOfAdded, Scan(hit, added[1..]), k);
      Select(KeyOfAdded, Scan(hit, added), k) == if hit(a.key) && a.key == k then [a] + rest else rest
  {
    var rest := Scan(hit, added[1..]);
    if hit(added[0].key) {
      SelectCons(KeyOfAdded, added[0], rest, k);
    } else {
      assert [] + rest == rest;
    }
  }

  // ------------------------------------------------------------- the index

  function Itself(k: string): string { k }

  function Unique(xs: seq<string>): (r: seq<string>)
    ensures forall x :: x in r <==> x in xs
    ensures DistinctKeys(Itself, r)
  {
    if xs == [] then []
    else
      var r := Unique(xs[1..]);
      assert xs == [xs[0]] + xs[1..];
      if xs[0] in r then r else [xs[0]] + r
  }

  /** The keys of a list without duplicates, in descending order. */
  function SortKeys(xs: seq<string>): (r: seq<string>)
    ensures StrictlySorted(StringGreater, Itself, r)
    ensures forall x :: x in r <==> x in xs
  {
    var u := Unique(xs);
    var r := Sort(StringGreater, Itself, u);
    StringsAreTotallyOrdered();
    SortIsStable(StringGreater, Itself, u);
    PermutedDistinct(Itself, r, u);
    SortedDistinctIsStrict(StringGreater, Itself, r);
    assert forall x :: x in r <==> x in multiset(r);
    assert forall x :: x in u <==> x in multiset(u);
    r
  }

  /** More specific before less specific: a key comes before all its proper prefixes. */
  lemma KeysComeBeforePrefixes(index: seq<string>, i: nat, j: nat)
    requires StrictlySorted(StringGreater, Itself, index) && i < |index| && j < |index| && index[j] < index[i]
    ensures i < j
  {
    PrefixIsLess(index[j], index[i]);
    StringOrder(index[j], index[i]);
    assert !StringGreater(index[j], index[i]) && i != j;
  }

  // ------------------------------------------------------------ the lookup

  /** What Lookup collects over the keys of the index. */
  function Collect(hit: string -> bool, added: seq<Added>, index: seq<string>): seq<Added> {
    if index == [] then []
    else (if hit(index[0]) then Select(KeyOfAdded, added, index[0]) else []) + Collect(hit, added, index[1..])
  }

  lemma {:induction false} SelectAgain(added: seq<Added>, k: string, l: string)
    ensures Select(KeyOfAdded, Select(KeyOfAdded, added, k), l) == if k == l then Select(KeyOfAdded, added, k) else []
  {
    if added != [] {
      SelectAgain(added[1..], k, l);
      var r := Select(KeyOfAdded, added, k);
      if added[0].key == k { assert r[1..] == Select(KeyOfAdded, added[1..], k); }
      else { assert r == Select(KeyOfAdded, added[1..], k); }
    }
  }

  lemma {:induction false} CollectSelects(hit: string -> bool, added: seq<Added>, index: seq<string>, k: string)
    requires forall i, j :: 0 <= i < j < |index| ==> index[i] != index[j]
    ensures Select(KeyOfAdded, Collect(hit, added, index), k) ==
      if k in index && hit(k) then Select(KeyOfAdded, added, k) else []
  {
    if index != [] {
      var head := if hit(index[0]) then Select(KeyOfAdded, added, index[0]) else [];
      CollectSelects(hit, added, index[1..], k);
      SelectConcat(KeyOfAdded, head, Collect(hit, added, index[1..]), k);
      SelectAgain(added, index[0], k);
      assert index == [index[0]] + index[1..];
      assert index[0] !in index[1..];
    }
  }

  lemma {:induction false} CollectSorted(lt: (string, string) -> bool, hit: string -> bool, added: seq<Added>,
                                         index: seq<string>)
    requires Asymmetric(lt) && StrictlySorted(lt, Itself, index)
    ensures Sorted(lt, KeyOfAdded, Collect(hit, added, index))
    ensures forall a :: a in Collect(hit, added, index) ==> a.key in index
  {
    if index != [] {
      var head := if hit(index[0]) then Select(KeyOfAdded, added, index[0]) else [];
      var rest := Collect(hit, added, index[1..]);
      CollectSorted(lt, hit, added, index[1..]);
      SelectMember(KeyOfAdded, added, index[0]);
      forall i | 0 <= i < |head| ensures head[i].key == index[0] { assert head[i] in head; }
      forall j | 0 <= j < |rest| ensures lt(index[0], rest[j].key) {
        assert rest[j] in rest;
        var n :| 0 <= n < |index[1..]| && index[1..][n] == rest[j].key;
        assert index[n + 1] == rest[j].key;
      }
    }
  }

  /** Walking the index finds the same entries, in the same order, as scanning
      everything ever added and sorting it by key. */
  lemma CollectIsSortedScan(lt: (string, string) -> bool, hit: string -> bool, added: seq<Added>, index: seq<string>)
    requires TotalOrder(lt) && StrictlySorted(lt, Itself, index)
    requires forall a :: a in added ==> a.key in index
    ensures Collect(hit, added, index) == Sort(lt, KeyOfAdded, Scan(hit, added))
  {
    var a, b := Collect(hit, added, index), Sort(lt, KeyOfAdded, Scan(hit, added));
    TotalIsAsymmetric(lt);
    CollectSorted(lt, hit, added, index);
    SortIsStable(lt, KeyOfAdded, Scan(hit, added));
    forall k ensures Select(KeyOfAdded, a, k) == Select(KeyOfAdded, b, k) {
      CollectSelects(hit, added, index, k);
      ScanSelects(hit, added, k);
      SelectNonEmpty(added, k);
    }
    SortedUnique(lt, KeyOfAdded, a, b);
  }

  // ------------------------------------------------------------ the object

  datatype ConfigEntry = ConfigEntry(provider: Option<nat>, username: string, password: string, email: string)

  function ToCredential(e: ConfigEntry): Credential {
    match e.provider
    case Some(p) => FromProvider(p)
    case None => Static(e.username, e.password, e.email)
  }

  /** An entry with a provider is resolved by it later; any other one is its own credential. */
  lemma CredentialOf(e: ConfigEntry)
    ensures e.provider.Some? <==> ToCredential(e).FromProvider?
    ensures e.provider.Some? ==> ToCredential(e).provider == e.provider.value
    ensures e.provider.None? ==>
      && ToCredential(e).username == e.username
      && ToCredential(e).password == e.password
      && ToCredential(e).email == e.email
  {
  }

  /** The entries of a configuration that have a key; the others are ignored. */
  function Entries(lib: Library, cfg: seq<(string, ConfigEntry)>): seq<Added> {
    if cfg == [] then []
    else
      var rest := Entries(lib, cfg[..|cfg| - 1]);
      var (loc, e) := cfg[|cfg| - 1];
      match KeyOf(lib, loc)
      case None => rest
      case Some(k) => rest + [Added(k, ToCredential(e))]
  }

  lemma EntriesStep(lib: Library, cfg: seq<(string, ConfigEntry)>, i: nat)
    requires i < |cfg|
    ensures var key := KeyOf(lib, cfg[i].0);
      Entries(lib, cfg[..i + 1]) ==
        Entries(lib, cfg[..i]) + if key.Some? then [Added(key.value, ToCredential(cfg[i].1))] else []
  {
    assert cfg[..i + 1][..i] == cfg[..i];
  }

  lemma CredsConcat(a: seq<Added>, b: seq<Added>)
    ensures Creds(a + b) == Creds(a) + Creds(b)
  {
  }

  /** `creds` holds, under each key, what was added under it, in order. */
  ghost predicate Records(creds: map<string, seq<Credential>>, added: seq<Added>) {
    && (forall k :: k in creds ==> creds[k] != [] && creds[k] == Creds(Select(KeyOfAdded, added, k)))
    && (forall a :: a in added ==> a.key in creds)
  }

  lemma RecordOne(creds: map<string, seq<Credential>>, added: seq<Added>, a: Added)
    requires Records(creds, added)
    ensures Records(creds[a.key := Get(creds, a.key, []) + [a.cred]], added + [a])
  {
    var creds' := creds[a.key := Get(creds, a.key, []) + [a.cred]];
    forall k | k in creds' ensures creds'[k] != [] && creds'[k] == Creds(Select(KeyOfAdded, added + [a], k)) {
      SelectConcat(KeyOfAdded, added, [a], k);
      CredsConcat(Select(KeyOfAdded, added, k), Select(KeyOfAdded, [a], k));
      SelectNonEmpty(added, k);
    }
  }

  lemma SelectNonEmpty(added: seq<Added>, k: string)
    ensures Select(KeyOfAdded, added, k) != [] <==> exists a :: a in added && a.key == k
  {
    SelectMember(KeyOfAdded, added, k);
    if Select(KeyOfAdded, added, k) != [] {
      assert Select(KeyOfAdded, added, k)[0] in added;
    }
  }

  /** `ret` and what the keys from `i` on will yield are all that the index yields. */
  ghost predicate Gathered(hit: string -> bool, added: seq<Added>, index: seq<string>, i: nat, ret: seq<Credential>) {
    i <= |index| && Creds(Collect(hit, added, index)) == ret + Creds(Collect(hit, added, index[i..]))
  }

  lemma GatherStep(hit: string -> bool, added: seq<Added>, index: seq<string>, i: nat, ret: seq<Credential>)
    requires i < |index| && Gathered(hit, added, index, i, ret)
    ensures hit(index[i]) ==> Gathered(hit, added, index, i + 1, ret + Creds(Select(KeyOfAdded, added, index[i])))
    ensures !hit(index[i]) ==> Gathered(hit, added, index, i + 1, ret)
  {
    assert index[i..][1..] == index[i + 1..];
    var head := if hit(index[i]) then Select(KeyOfAdded, added, index[i]) else [];
    var rest := Collect(hit, added, index[i + 1..]);
    CredsConcat(head, rest);
    assert ret + (Creds(head) + Creds(rest)) == (ret + Creds(head)) + Creds(rest);
    assert Creds(Collect(hit, added, index[i..])) == Creds(head) + Creds(rest);
    assert !hit(index[i]) ==> ret + Creds(head) == ret;
  }

  lemma GatherEnd(hit: string -> bool, added: seq<Added>, index: seq<string>, ret: seq<Credential>)
    requires Gathered(hit, added, index, |index|, ret)
    ensures ret == Creds(Collect(hit, added, index))
  {
    assert index[|index|..] == [];
  }

  lemma DescendingCollect(hit: string -> bool, added: seq<Added>, index: seq<string>)
    requires StrictlySorted(StringGreater, Itself, index)
    requires forall a :: a in added ==> a.key in index
    ensures Collect(hit, added, index) == Sort(StringGreater, KeyOfAdded, Scan(hit, added))
  {
    StringsAreTotallyOrdered();
    CollectIsSortedScan(StringGreater, hit, added, index);
  }

  class BasicDockerKeyring {
    const lib: Library
    var index: seq<string>
    var creds: map<string, seq<Credential>>
    ghost var added: seq<Added>

    /** The index is the key set of `creds` in strictly descending order. */
    ghost predicate Valid()
      reads this
    {
      && StrictlySorted(StringGreater, Itself, index)
      && (forall k :: k in index <==> k in creds)
      && Records(creds, added)
    }

    constructor (lib: Library)
      ensures Valid() && this.lib == lib && added == []
    {
      this.lib := lib;
      index, creds, added := [], map[], [];
    }

    method Add(cfg: seq<(string, ConfigEntry)>)
      requires Valid()
      modifies this
      ensures Valid() && added == old(added) + Entries(lib, cfg)
    {
      AddEntries(cfg);
      index := SortKeys(index);
    }

    /** Add's loop over the configuration, after which the index is not yet sorted. */
    method AddEntries(cfg: seq<(string, ConfigEntry)>)
      requires (forall k :: k in index <==> k in creds) && Records(creds, added)
      modifies this
      ensures (forall k :: k in index <==> k in creds) && Records(creds, added)
      ensures added == old(added) + Entries(lib, cfg)
    {
      for i := 0 to |cfg|
        invariant forall k :: k in index <==> k in creds
        invariant Records(creds, added)
        invariant added == old(added) + Entries(lib, cfg[..i])
      {
        EntriesStep(lib, cfg, i);
        var (loc, e) := cfg[i];
        var key := KeyOf(lib, loc);
        if key.Some? {
          RecordOne(creds, added, Added(key.value, ToCredential(e)));
          creds := creds[key.value := Get(creds, key.value, []) + [ToCredential(e)]];
          index := index + [key.value];
          added := added + [Added(key.value, ToCredential(e))];
        }
      }
      assert cfg[..|cfg|] == cfg;
    }

    /** Lookup's loop over the index. */
    method CollectMatches(image: string) returns (ret: seq<Credential>)
      requires Valid()
      ensures ret == Creds(Collect(Hits(lib, image), added, index))
    {
      ret := [];
      ghost var hit := Hits(lib, image);
      for i := 0 to |index|
        invariant Gathered(hit, added, index, i, ret)
      {
        GatherStep(hit, added, index, i, ret);
        var matched := UrlsMatchStr(lib, index[i], image);
        if matched == Some(true) {
          assert index[i] in index;
          ret := ret + creds[index[i]];
        }
      }
      GatherEnd(hit, added, index, ret);
    }

    method Lookup(image: string) returns (ret: seq<Credential>, found: bool)
      requires Valid()
      ensures (ret, found) == Reference(lib, added, image)
    {
      ret := CollectMatches(image);
      DescendingCollect(Hits(lib, image), added, index);
      if |ret| > 0 {
        return ret, true;
      }
      SelectNonEmpty(added, DEFAULT_REGISTRY_HOST);
      if IsDefaultRegistryMatch(image) {
        if DEFAULT_REGISTRY_HOST in creds {
          return creds[DEFAULT_REGISTRY_HOST], true;
        }
      }
      return [], false;
    }
  }
}
