/** The domain catalog, its cached host index, and the attribution of a page to a catalog row. */
module Catalog {
  import opened Prelude
  import opened LeadStore

  datatype DomainRow = DomainRow(
    title: string,
    category: string,
    state: Text,
    orgType: Text,
    mainUrl: Text,
    contactUrl: Text,
    externalId: Text)

  type Rows = map<int, DomainRow>

  /** What the index holds for a host: the row and its id. */
  datatype Listing = Listing(id: int, row: DomainRow)

  /** The network location of a URL; None where parsing raises. */
  type Parse = string -> Option<string>

  // ---- hosts ----

  function WithoutWww(s: string): string {
    if "www." <= s then s[4..] else s
  }

  function BeforeColon(s: string): (r: string)
    ensures ':' !in r
  {
    if s == "" || s[0] == ':' then "" else [s[0]] + BeforeColon(s[1..])
  }

  /** The key a row is indexed under, if it is crawlable at all. */
  function KeyOf(parse: Parse, row: DomainRow): Option<string> {
    if row.mainUrl.None? || parse(row.mainUrl.value).None? then None
    else
      var netloc := WithoutWww(Lower(parse(row.mainUrl.value).value));
      if netloc == "" then None else Some(netloc)
  }

  /** The host of a page, without port; empty when there is none. */
  function HostOf(parse: Parse, url: string): string {
    if parse(url).None? then "" else WithoutWww(BeforeColon(Lower(parse(url).value)))
  }

  lemma {:induction false} BeforeColonIs(s: string, tail: string)
    requires ':' !in s && (tail == "" || tail[0] == ':')
    ensures BeforeColon(s + tail) == s
  {
    if s == "" {
      assert s + tail == tail;
    } else {
      BeforeColonIs(s[1..], tail);
      assert (s + tail)[1..] == s[1..] + tail && (s + tail)[0] == s[0];
    }
  }

  lemma NoWww(host: string, tail: string)
    requires !("www." <= host) && host != "" && (tail == "" || tail[0] == ':')
    ensures WithoutWww(host + tail) == host + tail && WithoutWww("www." + host + tail) == host + tail
  {
    var n := host + tail;
    assert |host| >= 4 ==> n[..4] == host[..4];
    assert |host| < 4 && tail != "" ==> n[|host|] == ':';
    assert ("www." + host + tail)[4..] == n;
  }

  lemma LowerOfThree(a: string, b: string, c: string)
    ensures Lower(a + b + c) == Lower(a) + Lower(b) + Lower(c)
  {
  }

  /** A host as the index and the lookup write it: small letters, no port, no leading "www.". */
  predicate PlainHost(host: string) {
    host != "" && ':' !in host && Lower(host) == host && !("www." <= host)
  }

  /**
   Letter case and a leading "www." make no difference, to the key of a row or to the host of a page; a port,
   the tail here, makes none to the host of a page but stays in the key.
   */
  lemma WwwAndCaseDoNotMatter(parse: Parse, url: string, row: DomainRow, www: string, host: string, tail: string)
    requires PlainHost(host) && www in {"", "www."} && (tail == "" || tail[0] == ':')
    requires row.mainUrl == Some(url) && parse(url).Some? && SameButCase(parse(url).value, www + host + tail)
    ensures HostOf(parse, url) == host && KeyOf(parse, row) == Some(host + Lower(tail))
  {
    var low := Lower(tail);
    SameLowerIff(parse(url).value, www + host + tail);
    LowerOfThree(www, host, tail);
    assert Lower(www) == www && ':' !in www;
    assert low == "" || low[0] == ':';
    BeforeColonIs(www + host, low);
    NoWww(host, low);
    NoWww(host, "");
    assert host + "" == host && "www." + host + "" == "www." + host;
    assert "" + host == host && "" + host + low == host + low;
  }

  /** A row without a main URL, or with one that cannot be parsed, is not listed; the contact URL plays no part. */
  lemma UnlistedRow(parse: Parse, row: DomainRow, contact: Text)
    ensures row.mainUrl.None? ==> KeyOf(parse, row) == None
    ensures row.mainUrl.Some? && parse(row.mainUrl.value).None? ==> KeyOf(parse, row) == None
    ensures KeyOf(parse, row.(contactUrl := contact)) == KeyOf(parse, row)
  {
  }

  function Split(s: string): (labels: seq<string>)
    ensures labels != []
  {
    if s == "" then [""]
    else
      var rest := Split(s[1..]);
      if s[0] == '.' then [""] + rest else [[s[0]] + rest[0]] + rest[1..]
  }

  function Join(labels: seq<string>): string {
    if labels == [] then "" else if |labels| == 1 then labels[0] else labels[0] + "." + Join(labels[1..])
  }

  /** Labels are what lies between the dots. */
  lemma {:induction false} LabelsHaveNoDots(s: string, i: nat)
    requires i < |Split(s)|
    ensures '.' !in Split(s)[i]
  {
    if s != "" {
      var rest := Split(s[1..]);
      if s[0] == '.' {
        if i > 0 {
          LabelsHaveNoDots(s[1..], i - 1);
        }
      } else {
        LabelsHaveNoDots(s[1..], i);
        assert i == 0 ==> Split(s)[0] == [s[0]] + rest[0];
      }
    }
  }

  /** The first candidate of the walk is the host itself. */
  lemma {:induction false} JoinSplit(s: string)
    ensures Join(Split(s)) == s
  {
    if s != "" {
      JoinSplit(s[1..]);
      var rest := Split(s[1..]);
      if s[0] == '.' {
        assert ([""] + rest)[1..] == rest;
        assert Join(Split(s)) == "." + Join(rest);
        assert "." == [s[0]];
      } else {
        var labels := [[s[0]] + rest[0]] + rest[1..];
        assert labels[1..] == rest[1..];
        if |rest| > 1 {
          assert Join(labels) == [s[0]] + rest[0] + "." + Join(rest[1..]);
          assert Join(labels) == [s[0]] + Join(rest);
        }
      }
    }
  }

  /** Every candidate of the walk is an end of the host, so the longest ones come first. */
  lemma {:induction false} CandidatesAreSuffixes(labels: seq<string>, k: nat)
    requires k < |labels|
    ensures |Join(labels[k..])| <= |Join(labels)|
    ensures Join(labels[k..]) == Join(labels)[|Join(labels)| - |Join(labels[k..])|..]
  {
    if k == 0 {
      assert labels[0..] == labels;
    } else {
      CandidatesAreSuffixes(labels[1..], k - 1);
      assert labels[1..][k - 1..] == labels[k..];
      assert Join(labels) == labels[0] + "." + Join(labels[1..]);
    }
  }

  // ---- the naive rule ----

  predicate Listed(parse: Parse, rows: Rows, key: string) {
    exists id :: id in rows && KeyOf(parse, rows[id]) == Some(key)
  }

  /** The row listed under a key with the lowest id. */
  ghost predicate Wins(parse: Parse, rows: Rows, key: string, id: int) {
    && id in rows && KeyOf(parse, rows[id]) == Some(key)
    && forall other :: other in rows && KeyOf(parse, rows[other]) == Some(key) ==> id <= other
  }

  /** Candidate k of the walk: the host without its first k labels. */
  function Candidate(labels: seq<string>, k: nat): string
    requires k <= |labels|
  {
    Join(labels[k..])
  }

  /** No candidate before k is listed or public. */
  ghost predicate Passed(parse: Parse, rows: Rows, labels: seq<string>, public: set<string>, k: nat)
    requires k <= |labels|
  {
    forall j :: 0 <= j < k ==> Candidate(labels, j) !in public && !Listed(parse, rows, Candidate(labels, j))
  }

  /** The longest listed label suffix of at least two labels with no public suffix reached first; the lowest id on ties. */
  ghost predicate Attributed(parse: Parse, rows: Rows, labels: seq<string>, public: set<string>, hit: Option<Listing>) {
    if hit.Some? then
      && hit.value.id in rows && hit.value.row == rows[hit.value.id]
      && exists k: nat :: k + 2 <= |labels| && Passed(parse, rows, labels, public, k) && Candidate(labels, k) !in public
                          && Wins(parse, rows, Candidate(labels, k), hit.value.id)
    else
      forall k: nat :: k + 2 <= |labels| && Listed(parse, rows, Candidate(labels, k)) ==>
        exists j: nat :: j <= k && Candidate(labels, j) in public
  }

  lemma HitExcludesNone(parse: Parse, rows: Rows, labels: seq<string>, public: set<string>, hit: Listing)
    requires Attributed(parse, rows, labels, public, Some(hit))
    ensures !Attributed(parse, rows, labels, public, None)
  {
    var k: nat :| k + 2 <= |labels| && Passed(parse, rows, labels, public, k) && Candidate(labels, k) !in public
                  && Wins(parse, rows, Candidate(labels, k), hit.id);
    assert Listed(parse, rows, Candidate(labels, k));
  }

  lemma HitIsUnique(parse: Parse, rows: Rows, labels: seq<string>, public: set<string>, x: Listing, y: Listing)
    requires Attributed(parse, rows, labels, public, Some(x)) && Attributed(parse, rows, labels, public, Some(y))
    ensures x == y
  {
    var k: nat :| k + 2 <= |labels| && Passed(parse, rows, labels, public, k) && Candidate(labels, k) !in public
                  && Wins(parse, rows, Candidate(labels, k), x.id);
    var l: nat :| l + 2 <= |labels| && Passed(parse, rows, labels, public, l) && Candidate(labels, l) !in public
                  && Wins(parse, rows, Candidate(labels, l), y.id);
    assert Listed(parse, rows, Candidate(labels, k)) && Listed(parse, rows, Candidate(labels, l));
    assert k == l;
  }

  /** The rule names at most one row, so it determines the attribution. */
  lemma AttributionIsUnique(parse: Parse, rows: Rows, labels: seq<string>, public: set<string>,
                            x: Option<Listing>, y: Option<Listing>)
    requires Attributed(parse, rows, labels, public, x) && Attributed(parse, rows, labels, public, y)
    ensures x == y
  {
    match (x, y)
    case (Some(p), Some(q)) => HitIsUnique(parse, rows, labels, public, p, q);
    case (Some(p), None) => HitExcludesNone(parse, rows, labels, public, p);
    case (None, Some(q)) => HitExcludesNone(parse, rows, labels, public, q);
    case (None, None) =>
  }

  lemma NoColonInSuffix(s: string, n: nat)
    requires n <= |s| && ':' !in s
    ensures ':' !in s[n..]
  {
  }

  /** A row whose URL names a port is indexed with the port and so never attributed. */
  lemma PortsNeverMatch(parse: Parse, rows: Rows, url: string, public: set<string>, hit: Listing)
    requires Attributed(parse, rows, Split(HostOf(parse, url)), public, Some(hit))
    ensures KeyOf(parse, hit.row).Some? && ':' !in KeyOf(parse, hit.row).value
  {
    var labels := Split(HostOf(parse, url));
    var k: nat :| k + 2 <= |labels| && Passed(parse, rows, labels, public, k) && Candidate(labels, k) !in public
                  && Wins(parse, rows, Candidate(labels, k), hit.id);
    JoinSplit(HostOf(parse, url));
    CandidatesAreSuffixes(labels, k);
    NoColonInSuffix(HostOf(parse, url), |HostOf(parse, url)| - |Candidate(labels, k)|);
  }

  // ---- a row's own page ----

  lemma {:induction false} NoColonNoCut(s: string)
    requires ':' !in s
    ensures BeforeColon(s) == s
  {
    if s != "" {
      NoColonNoCut(s[1..]);
      assert s == [s[0]] + s[1..];
    }
  }

  lemma WwwColon(s: string)
    ensures ':' in WithoutWww(s) <==> ':' in s
  {
    if "www." <= s {
      assert s == s[..4] + s[4..] && s[..4] == "www.";
      assert ':' !in s[..4];
    }
  }

  /** Without a port, the host of a row's own page is the key of the row. */
  lemma OwnHost(parse: Parse, row: DomainRow, url: string)
    requires KeyOf(parse, row).Some? && parse(url) == parse(row.mainUrl.value) && ':' !in KeyOf(parse, row).value
    ensures HostOf(parse, url) == KeyOf(parse, row).value
  {
    WwwColon(Lower(parse(url).value));
    NoColonNoCut(Lower(parse(url).value));
  }

  /** Some row listed under the key is attributed to the page. */
  ghost predicate KeyAttributed(parse: Parse, rows: Rows, url: string, public: set<string>, key: string) {
    exists hit :: Attributed(parse, rows, Split(HostOf(parse, url)), public, Some(hit)) && KeyOf(parse, hit.row) == Some(key)
  }

  /**
   A page on a catalog row's own network location is attributed to a row of its key exactly when the key
   names no port, has at least two labels and is not itself a public suffix.
   */
  lemma OwnPageAttributedIff(parse: Parse, rows: Rows, id: int, url: string, public: set<string>)
    requires id in rows && KeyOf(parse, rows[id]).Some? && parse(url) == parse(rows[id].mainUrl.value)
    ensures var key := KeyOf(parse, rows[id]).value;
            KeyAttributed(parse, rows, url, public, key) <==> ':' !in key && |Split(key)| >= 2 && key !in public
  {
    var key := KeyOf(parse, rows[id]).value;
    var labels := Split(HostOf(parse, url));
    if ':' in key {
      if hit :| Attributed(parse, rows, labels, public, Some(hit)) && KeyOf(parse, hit.row) == Some(key) {
        PortsNeverMatch(parse, rows, url, public, hit);
      }
    } else {
      OwnHost(parse, rows[id], url);
      JoinSplit(key);
      assert labels[0..] == labels && Candidate(labels, 0) == key;
      KeyHasIds(parse, rows, key);
      var best := Best(parse, rows, key);
      if |labels| >= 2 && key !in public {
        assert Passed(parse, rows, labels, public, 0);
        assert Attributed(parse, rows, labels, public, Some(Listing(best, rows[best])));
      } else if hit :| Attributed(parse, rows, labels, public, Some(hit)) && KeyOf(parse, hit.row) == Some(key) {
        ShortOrPublicIsNot(parse, rows, labels, public, hit);
      }
    }
  }

  /** Nothing is attributed to a host of one label or to a public suffix. */
  lemma ShortOrPublicIsNot(parse: Parse, rows: Rows, labels: seq<string>, public: set<string>, hit: Listing)
    requires Attributed(parse, rows, labels, public, Some(hit))
    ensures |labels| >= 2 && Candidate(labels, 0) !in public
  {
    var k: nat :| k + 2 <= |labels| && Passed(parse, rows, labels, public, k) && Candidate(labels, k) !in public
                  && Wins(parse, rows, Candidate(labels, k), hit.id);
  }

  /** A row listed with a port, and the page it names: nothing is attributed. */
  lemma PortRowGetsNothing(parse: Parse, public: set<string>)
    requires parse("http://a.in:8080/") == Some("a.in:8080")
    ensures var rows := map[1 := DomainRow("A", "c", None, None, Some("http://a.in:8080/"), None, None)];
            KeyOf(parse, rows[1]) == Some("a.in:8080")
            && Attributed(parse, rows, Split(HostOf(parse, "http://a.in:8080/")), public, None)
  {
    var url := "http://a.in:8080/";
    var rows := map[1 := DomainRow("A", "c", None, None, Some(url), None, None)];
    assert Lower("a.in:8080") == "a.in:8080";
    var labels := Split(HostOf(parse, url));
    forall k: nat | k + 2 <= |labels| ensures !Listed(parse, rows, Candidate(labels, k)) {
      JoinSplit(HostOf(parse, url));
      CandidatesAreSuffixes(labels, k);
      WwwColon(BeforeColon("a.in:8080"));
      NoColonInSuffix(HostOf(parse, url), |HostOf(parse, url)| - |Candidate(labels, k)|);
      assert "a.in:8080"[4] == ':';
    }
  }

  // ---- the index ----

  function IdsOf(parse: Parse, rows: Rows, key: string): set<int> {
    set id | id in rows && KeyOf(parse, rows[id]) == Some(key)
  }

  function KeysOf(parse: Parse, rows: Rows): set<string> {
    set id | id in rows && KeyOf(parse, rows[id]).Some? :: KeyOf(parse, rows[id]).value
  }

  /** The index is exact: each host of the catalog once, with its lowest row. */
  ghost predicate Indexes(parse: Parse, rows: Rows, index: map<string, Listing>) {
    && index.Keys == KeysOf(parse, rows)
    && forall key :: key in index ==> Lists(parse, rows, key, index[key])
  }

  /** The entry is the lowest row of the key, as it stands. */
  ghost predicate Lists(parse: Parse, rows: Rows, key: string, entry: Listing) {
    Wins(parse, rows, key, entry.id) && entry.id in rows && entry.row == rows[entry.id]
  }

  /** Whatever the order the rows come in, there is one index. */
  lemma IndexIsUnique(parse: Parse, rows: Rows, x: map<string, Listing>, y: map<string, Listing>)
    requires Indexes(parse, rows, x) && Indexes(parse, rows, y)
    ensures x == y
  {
    forall key | key in x ensures x[key] == y[key] {
      assert Wins(parse, rows, key, x[key].id) && Wins(parse, rows, key, y[key].id);
    }
  }

  method BuildNetlocDomainMap(parse: Parse, rows: Rows) returns (byNetloc: map<string, Listing>)
    ensures Indexes(parse, rows, byNetloc)
  {
    byNetloc := map[];
    var left := rows.Keys;
    ghost var seen: Rows := map[];
    while left != {}
      invariant left <= rows.Keys && seen.Keys == rows.Keys - left
      invariant forall id :: id in seen ==> seen[id] == rows[id]
      invariant Indexes(parse, seen, byNetloc)
      decreases left
    {
      ghost var any := Member(left);
      var id :| id in left;
      var row := rows[id];
      left := left - {id};
      IndexNext(parse, seen, byNetloc, id, row);
      seen := seen[id := row];
      var netloc := KeyOf(parse, row);
      if netloc.Some? && !(netloc.value in byNetloc && byNetloc[netloc.value].id <= id) {
        byNetloc := byNetloc[netloc.value := Listing(id, row)];
      }
    }
    SameMap(rows, seen);
  }

  lemma KeysNext(parse: Parse, rows: Rows, id: int, row: DomainRow)
    requires id !in rows
    ensures KeysOf(parse, rows[id := row])
            == KeysOf(parse, rows) + if KeyOf(parse, row).Some? then {KeyOf(parse, row).value} else {}
  {
    var more := rows[id := row];
    forall key | key in KeysOf(parse, rows) ensures key in KeysOf(parse, more) {
      var other :| other in rows && KeyOf(parse, rows[other]) == Some(key);
      assert more[other] == rows[other];
    }
    if KeyOf(parse, row).Some? {
      assert more[id] == row;
    }
  }

  lemma ListsNext(parse: Parse, rows: Rows, id: int, row: DomainRow, key: string, entry: Listing)
    requires id !in rows && Lists(parse, rows, key, entry)
    ensures Lists(parse, rows[id := row], key, if KeyOf(parse, row) == Some(key) && id < entry.id then Listing(id, row) else entry)
  {
  }

  lemma ListsFirst(parse: Parse, rows: Rows, id: int, row: DomainRow, key: string)
    requires key !in KeysOf(parse, rows) && KeyOf(parse, row) == Some(key)
    ensures Lists(parse, rows[id := row], key, Listing(id, row))
  {
  }

  lemma IndexNext(parse: Parse, rows: Rows, index: map<string, Listing>, id: int, row: DomainRow)
    requires Indexes(parse, rows, index) && id !in rows
    ensures var netloc := KeyOf(parse, row);
            Indexes(parse, rows[id := row],
                    if netloc.Some? && !(netloc.value in index && index[netloc.value].id <= id)
                    then index[netloc.value := Listing(id, row)] else index)
  {
    var netloc := KeyOf(parse, row);
    var next := if netloc.Some? && !(netloc.value in index && index[netloc.value].id <= id)
                then index[netloc.value := Listing(id, row)] else index;
    KeysNext(parse, rows, id, row);
    forall key | key in next ensures Lists(parse, rows[id := row], key, next[key]) {
      if key in index {
        ListsNext(parse, rows, id, row, key, index[key]);
      } else {
        ListsFirst(parse, rows, id, row, key);
      }
    }
  }

  lemma IndexedIffListed(parse: Parse, rows: Rows, index: map<string, Listing>, key: string)
    requires Indexes(parse, rows, index)
    ensures key in index <==> Listed(parse, rows, key)
  {
    if Listed(parse, rows, key) {
      var id :| id in rows && KeyOf(parse, rows[id]) == Some(key);
      assert key in KeysOf(parse, rows);
    }
  }

  /** The walk up from a host, looking each candidate up in an index. */
  function Walk(index: map<string, Listing>, labels: seq<string>, public: set<string>): Option<Listing> {
    if |labels| < 2 || Join(labels) in public then None
    else if Join(labels) in index then Some(index[Join(labels)])
    else Walk(index, labels[1..], public)
  }

  lemma CandidateBelow(labels: seq<string>, k: nat)
    requires k + 1 <= |labels|
    ensures Candidate(labels[1..], k) == Candidate(labels, k + 1)
  {
    assert labels[1..][k..] == labels[k + 1..];
  }

  lemma PassedBelow(parse: Parse, rows: Rows, labels: seq<string>, public: set<string>, k: nat)
    requires k + 1 <= |labels| && Passed(parse, rows, labels[1..], public, k)
    requires Candidate(labels, 0) !in public && !Listed(parse, rows, Candidate(labels, 0))
    ensures Passed(parse, rows, labels, public, k + 1)
  {
    forall j | 0 <= j < k + 1 ensures Candidate(labels, j) !in public && !Listed(parse, rows, Candidate(labels, j)) {
      if j > 0 {
        CandidateBelow(labels, j - 1);
      }
    }
  }

  lemma NoneBelow(parse: Parse, rows: Rows, labels: seq<string>, public: set<string>, k: nat)
    requires k + 2 <= |labels| && !Listed(parse, rows, Candidate(labels, 0)) && Listed(parse, rows, Candidate(labels, k))
    requires Attributed(parse, rows, labels[1..], public, None)
    ensures exists j: nat :: j <= k && Candidate(labels, j) in public
  {
    CandidateBelow(labels, k - 1);
    var j: nat :| j <= k - 1 && Candidate(labels[1..], j) in public;
    CandidateBelow(labels, j);
  }

  /** Attribution for the parent domain carries over when the host itself is neither listed nor public. */
  lemma AttributedBelow(parse: Parse, rows: Rows, labels: seq<string>, public: set<string>, hit: Option<Listing>)
    requires |labels| >= 2 && Join(labels) !in public && !Listed(parse, rows, Join(labels))
    requires Attributed(parse, rows, labels[1..], public, hit)
    ensures Attributed(parse, rows, labels, public, hit)
  {
    assert labels[0..] == labels;
    if hit.Some? {
      var k: nat :| k + 2 <= |labels[1..]| && Passed(parse, rows, labels[1..], public, k) && Candidate(labels[1..], k) !in public
                    && Wins(parse, rows, Candidate(labels[1..], k), hit.value.id);
      PassedBelow(parse, rows, labels, public, k);
      CandidateBelow(labels, k);
    } else {
      forall k: nat | k + 2 <= |labels| && Listed(parse, rows, Candidate(labels, k))
        ensures exists j: nat :: j <= k && Candidate(labels, j) in public
      {
        NoneBelow(parse, rows, labels, public, k);
      }
    }
  }

  /** Walking an exact index is the naive rule. */
  lemma {:induction false} WalkIsTheRule(parse: Parse, rows: Rows, index: map<string, Listing>, labels: seq<string>, public: set<string>)
    requires Indexes(parse, rows, index)
    ensures Attributed(parse, rows, labels, public, Walk(index, labels, public))
    decreases |labels|
  {
    if |labels| >= 2 {
      assert labels[0..] == labels && Candidate(labels, 0) == Join(labels);
      IndexedIffListed(parse, rows, index, Join(labels));
      if Join(labels) !in public && Join(labels) !in index {
        WalkIsTheRule(parse, rows, index, labels[1..], public);
        AttributedBelow(parse, rows, labels, public, Walk(index, labels[1..], public));
      } else if Join(labels) !in public {
        assert Passed(parse, rows, labels, public, 0);
      }
    }
  }

  /** Walks from the host up through its parent domains. */
  method ResolveDomainForUrl(parse: Parse, url: string, index: map<string, Listing>, public: set<string>)
    returns (hit: Option<Listing>)
    ensures hit == Walk(index, Split(HostOf(parse, url)), public)
  {
    var host := HostOf(parse, url);
    if host == "" {
      return None;
    }
    var labels := Split(host);
    while |labels| >= 2
      invariant Walk(index, labels, public) == Walk(index, Split(host), public)
      decreases |labels|
    {
      var candidate := Join(labels);
      if candidate in public {
        return None;
      }
      if candidate in index {
        return Some(index[candidate]);
      }
      labels := labels[1..];
    }
    return None;
  }

  // ---- any sequence of writes and lookups ----

  /** The rows and the cached index. */
  datatype State = State(rows: Rows, cache: Option<map<string, Listing>>)

  /** A write leaves some rows and drops the cache; a lookup fills it. */
  datatype CatalogOp = Write(rows: Rows) | Lookup(labels: seq<string>)

  lemma KeyHasIds(parse: Parse, rows: Rows, key: string)
    requires key in KeysOf(parse, rows)
    ensures IdsOf(parse, rows, key) != {}
  {
    var id :| id in rows && KeyOf(parse, rows[id]) == Some(key);
    assert id in IdsOf(parse, rows, key);
  }

  function Best(parse: Parse, rows: Rows, key: string): (id: int)
    requires key in KeysOf(parse, rows)
    ensures Wins(parse, rows, key, id)
  {
    KeyHasIds(parse, rows, key);
    assert forall id :: id in rows && KeyOf(parse, rows[id]) == Some(key) ==> id in IdsOf(parse, rows, key);
    Least(IdsOf(parse, rows, key))
  }

  function IndexOf(parse: Parse, rows: Rows): (index: map<string, Listing>)
    ensures Indexes(parse, rows, index)
  {
    map key | key in KeysOf(parse, rows) :: Listing(Best(parse, rows, key), rows[Best(parse, rows, key)])
  }

  function IndexUsed(parse: Parse, s: State): map<string, Listing> {
    if s.cache.Some? then s.cache.value else IndexOf(parse, s.rows)
  }

  function After(parse: Parse, s: State, ops: seq<CatalogOp>): State {
    if ops == [] then s
    else
      var before := After(parse, s, ops[..|ops| - 1]);
      match ops[|ops| - 1]
      case Write(rows) => State(rows, None)
      case Lookup(_) => State(before.rows, Some(IndexUsed(parse, before)))
  }

  /** After any writes and lookups, a cached lookup answers by the naive rule on the rows as they are then. */
  lemma {:induction false} LookupsFollowTheRows(parse: Parse, rows: Rows, ops: seq<CatalogOp>, labels: seq<string>, public: set<string>)
    ensures var s := After(parse, State(rows, None), ops);
            Indexes(parse, s.rows, IndexUsed(parse, s)) &&
            Attributed(parse, s.rows, labels, public, Walk(IndexUsed(parse, s), labels, public))
  {
    var s := After(parse, State(rows, None), ops);
    if ops != [] {
      LookupsFollowTheRows(parse, rows, ops[..|ops| - 1], labels, public);
    }
    WalkIsTheRule(parse, s.rows, IndexUsed(parse, s), labels, public);
  }

  function Stripped(suffix: string): string {
    if suffix != "" && suffix[0] == '.' then Stripped(suffix[1..]) else suffix
  }

  /** A public suffix is a configured one without its leading dots. */
  lemma {:induction false} StrippedIs(suffix: string) returns (dots: nat)
    ensures dots <= |suffix| && Stripped(suffix) == suffix[dots..]
    ensures forall i :: 0 <= i < dots ==> suffix[i] == '.'
    ensures dots < |suffix| ==> suffix[dots] != '.'
  {
    if suffix != "" && suffix[0] == '.' {
      var rest := StrippedIs(suffix[1..]);
      dots := rest + 1;
    } else {
      dots := 0;
    }
  }

  // ---- importing a catalog ----

  /** What makes two imported entries the same. */
  datatype RowKey = External(id: string) | Url(url: string) | Alone(index: nat)

  function KeyAt(entries: seq<DomainRow>, i: nat): RowKey
    requires i < |entries|
  {
    if Truthy(entries[i].externalId) then External(entries[i].externalId.value)
    else if Truthy(entries[i].mainUrl) then Url(entries[i].mainUrl.value)
    else Alone(i)
  }

  predicate Given(t: Text) {
    t.Some? && t.value != ""
  }

  /** Two entries are the same row when they share an external id or, neither having one, a main URL. */
  lemma SameKeyIff(entries: seq<DomainRow>, i: nat, j: nat)
    requires i < |entries| && j < |entries|
    ensures KeyAt(entries, i) == KeyAt(entries, j) <==>
              || i == j
              || (Given(entries[i].externalId) && entries[i].externalId == entries[j].externalId)
              || (!Given(entries[i].externalId) && !Given(entries[j].externalId)
                  && Given(entries[i].mainUrl) && entries[i].mainUrl == entries[j].mainUrl)
  {
  }

  /** Entry i is the first, or the last, with its key. */
  ghost predicate FirstOf(entries: seq<DomainRow>, i: nat)
    requires i < |entries|
  {
    forall j :: 0 <= j < i ==> KeyAt(entries, j) != KeyAt(entries, i)
  }

  ghost predicate LastOf(entries: seq<DomainRow>, i: nat)
    requires i < |entries|
  {
    forall j :: i < j < |entries| ==> KeyAt(entries, j) != KeyAt(entries, i)
  }

  /** Some first entry has the key of entry i. */
  ghost predicate Represented(entries: seq<DomainRow>, firsts: seq<nat>, i: nat)
    requires i < |entries|
  {
    exists p :: 0 <= p < |firsts| && firsts[p] < |entries| && KeyAt(entries, firsts[p]) == KeyAt(entries, i)
  }

  /**
   One row per key, in order of the key's first entry, with the contents of its last entry:
   row p stems from entries firsts[p] and lasts[p].
   */
  ghost predicate Collapsed(entries: seq<DomainRow>, rows: seq<DomainRow>, firsts: seq<nat>, lasts: seq<nat>) {
    && |firsts| == |rows| == |lasts|
    && (forall p :: 0 <= p < |rows| ==>
          firsts[p] <= lasts[p] < |entries| && KeyAt(entries, firsts[p]) == KeyAt(entries, lasts[p])
          && FirstOf(entries, firsts[p]) && LastOf(entries, lasts[p]) && rows[p] == entries[lasts[p]])
    && (forall p, q :: 0 <= p < q < |rows| ==> firsts[p] < firsts[q])
    && (forall i :: 0 <= i < |entries| ==> Represented(entries, firsts, i))
  }

  ghost predicate CollapsedTo(entries: seq<DomainRow>, rows: seq<DomainRow>) {
    exists firsts, lasts :: Collapsed(entries, rows, firsts, lasts)
  }

  /** The keys of the first i entries in order of their first entry. */
  ghost predicate InOrder(entries: seq<DomainRow>, i: nat, order: seq<RowKey>, firsts: seq<nat>)
    requires i <= |entries|
  {
    && |firsts| == |order|
    && (forall p :: 0 <= p < |order| ==> firsts[p] < i && KeyAt(entries, firsts[p]) == order[p] && FirstOf(entries, firsts[p]))
    && (forall p, q :: 0 <= p < q < |order| ==> firsts[p] < firsts[q])
  }

  ghost predicate Latest(entries: seq<DomainRow>, i: nat, key: RowKey, last: nat)
    requires i <= |entries|
  {
    last < i && KeyAt(entries, last) == key && forall j :: last < j < i ==> KeyAt(entries, j) != key
  }

  /** The dictionary after the first i entries: each key with its last entry so far. */
  ghost predicate UpToDate(entries: seq<DomainRow>, i: nat, byKey: map<RowKey, DomainRow>, lastAt: map<RowKey, nat>)
    requires i <= |entries|
  {
    && byKey.Keys == lastAt.Keys
    && (forall j :: 0 <= j < i ==> KeyAt(entries, j) in byKey)
    && (forall key :: key in byKey ==> Latest(entries, i, key, lastAt[key]) && byKey[key] == entries[lastAt[key]])
  }

  lemma InOrderNext(entries: seq<DomainRow>, i: nat, order: seq<RowKey>, firsts: seq<nat>)
    requires i < |entries| && InOrder(entries, i, order, firsts) && FirstOf(entries, i)
    ensures InOrder(entries, i + 1, order + [KeyAt(entries, i)], firsts + [i])
  {
  }

  lemma UpToDateNext(entries: seq<DomainRow>, i: nat, byKey: map<RowKey, DomainRow>, lastAt: map<RowKey, nat>)
    requires i < |entries| && UpToDate(entries, i, byKey, lastAt)
    ensures UpToDate(entries, i + 1, byKey[KeyAt(entries, i) := entries[i]], lastAt[KeyAt(entries, i) := i])
    ensures KeyAt(entries, i) !in byKey ==> FirstOf(entries, i)
  {
  }

  /** The keys in the order they first appear, and the last entry of each. */
  method GroupEntries(entries: seq<DomainRow>)
    returns (byKey: map<RowKey, DomainRow>, order: seq<RowKey>, ghost firsts: seq<nat>, ghost lastAt: map<RowKey, nat>)
    ensures InOrder(entries, |entries|, order, firsts) && UpToDate(entries, |entries|, byKey, lastAt)
    ensures byKey.Keys == set key | key in order
  {
    byKey, order, firsts, lastAt := map[], [], [], map[];
    var i := 0;
    while i < |entries|
      invariant 0 <= i <= |entries|
      invariant InOrder(entries, i, order, firsts) && UpToDate(entries, i, byKey, lastAt)
      invariant byKey.Keys == set key | key in order
    {
      UpToDateNext(entries, i, byKey, lastAt);
      var key := KeyAt(entries, i);
      if key !in byKey {
        InOrderNext(entries, i, order, firsts);
        order := order + [key];
        firsts := firsts + [i];
      }
      byKey := byKey[key := entries[i]];
      lastAt := lastAt[key := i];
      i := i + 1;
    }
  }

  method CollapseEntries(entries: seq<DomainRow>) returns (rows: seq<DomainRow>)
    ensures CollapsedTo(entries, rows)
  {
    var byKey, order, firsts, lastAt := GroupEntries(entries);
    assert forall p :: 0 <= p < |order| ==> order[p] in byKey;
    rows := seq(|order|, p requires 0 <= p < |order| => byKey[order[p]]);
    ghost var lasts := seq(|order|, p requires 0 <= p < |order| => lastAt[order[p]]);
    GroupedCollapses(entries, byKey, order, firsts, lastAt, rows, lasts);
  }

  lemma GroupedCollapses(entries: seq<DomainRow>, byKey: map<RowKey, DomainRow>, order: seq<RowKey>, firsts: seq<nat>,
                         lastAt: map<RowKey, nat>, rows: seq<DomainRow>, lasts: seq<nat>)
    requires InOrder(entries, |entries|, order, firsts) && UpToDate(entries, |entries|, byKey, lastAt)
    requires byKey.Keys == set key | key in order
    requires |rows| == |order| == |lasts|
    requires forall p :: 0 <= p < |order| ==> order[p] in byKey && rows[p] == byKey[order[p]] && lasts[p] == lastAt[order[p]]
    ensures Collapsed(entries, rows, firsts, lasts)
  {
    forall p | 0 <= p < |rows|
      ensures firsts[p] <= lasts[p] < |entries| && KeyAt(entries, firsts[p]) == KeyAt(entries, lasts[p])
      ensures FirstOf(entries, firsts[p]) && LastOf(entries, lasts[p]) && rows[p] == entries[lasts[p]]
    {
      assert Latest(entries, |entries|, order[p], lasts[p]) && KeyAt(entries, firsts[p]) == order[p];
    }
    forall i | 0 <= i < |entries| ensures Represented(entries, firsts, i) {
      assert KeyAt(entries, i) in byKey.Keys && KeyAt(entries, i) in order;
      var p :| 0 <= p < |order| && order[p] == KeyAt(entries, i);
      assert KeyAt(entries, firsts[p]) == order[p];
    }
  }

  // ---- the catalog object ----

  /** The rows of a sequence with consecutive ids from base. */
  function Numbered(rows: seq<DomainRow>, base: int): (r: Rows)
    ensures forall id :: id in r <==> base <= id < base + |rows|
    ensures forall id :: id in r ==> r[id] == rows[id - base]
  {
    if rows == [] then map[] else Numbered(rows[..|rows| - 1], base)[base + |rows| - 1 := rows[|rows| - 1]]
  }

  class DomainCatalog {
    const parse: Parse
    var rows: Rows
    var nextId: int
    var cache: Option<map<string, Listing>>

    constructor (parse: Parse)
      ensures Valid() && rows == map[]
    {
      this.parse := parse;
      rows, nextId, cache := map[], 1, None;
    }

    /** Ids are used up in order, and a cached index is the index of the rows as they are now. */
    ghost predicate Valid()
      reads this
    {
      (forall id :: id in rows ==> id < nextId) && (cache.Some? ==> Indexes(parse, rows, cache.value))
    }

    method GetNetlocDomainMap() returns (index: map<string, Listing>)
      requires Valid()
      modifies `cache
      ensures Valid() && Indexes(parse, rows, index)
    {
      if cache.None? {
        var built := BuildNetlocDomainMap(parse, rows);
        cache := Some(built);
      }
      index := cache.value;
    }

    /** Attribution through the cache is the naive rule on the current rows. */
    method Attribute(url: string, suffixes: seq<string>) returns (hit: Option<Listing>)
      requires Valid()
      modifies `cache
      ensures Valid()
      ensures Attributed(parse, rows, Split(HostOf(parse, url)), set s | s in suffixes :: Stripped(s), hit)
    {
      var index := GetNetlocDomainMap();
      hit := ResolveDomainForUrl(parse, url, index, set s | s in suffixes :: Stripped(s));
      WalkIsTheRule(parse, rows, index, Split(HostOf(parse, url)), set s | s in suffixes :: Stripped(s));
    }

    /** Updates a row with the same external id, or without one the same URL; else inserts. */
    method UpsertDomain(row: DomainRow) returns (id: int)
      requires Valid()
      modifies this
      ensures Valid() && rows == old(rows)[id := row]
      ensures id in old(rows) ==> Matches(old(rows)[id], row)
      ensures id !in old(rows) ==> id == old(nextId) && forall x :: x in old(rows) ==> !Matches(old(rows)[x], row)
      ensures nextId == if id == old(nextId) && id !in old(rows) then old(nextId) + 1 else old(nextId)
      ensures row.externalId !in {None, Some("")} ==>
                (id in old(rows) <==> exists x :: x in old(rows) && old(rows)[x].externalId == row.externalId)
                && (id in old(rows) ==> old(rows)[id].externalId == row.externalId)
      ensures row.externalId in {None, Some("")} && row.mainUrl !in {None, Some("")} ==>
                (id in old(rows) <==> exists x :: x in old(rows) && old(rows)[x].mainUrl == row.mainUrl)
                && (id in old(rows) ==> old(rows)[id].mainUrl == row.mainUrl)
      ensures row.externalId in {None, Some("")} && row.mainUrl in {None, Some("")} ==> id !in old(rows)
    {
      var existing := set x | x in rows && Matches(rows[x], row);
      if existing != {} {
        ghost var any := Member(existing);
        var x :| x in existing;
        id := x;
      } else {
        assert forall x :: x in rows && Matches(rows[x], row) ==> x in existing;
        id := nextId;
        nextId := nextId + 1;
      }
      rows := rows[id := row];
      cache := None;
    }

    method UpdateDomainUrl(id: int, mainUrl: string, contactUrl: Text) returns (found: bool)
      requires Valid()
      modifies `rows, `cache
      ensures Valid() && found == (id in old(rows))
      ensures rows == if found then
                        old(rows)[id := old(rows)[id].(mainUrl := Some(mainUrl),
                                                       contactUrl := if contactUrl.Some? then contactUrl else old(rows)[id].contactUrl)]
                      else old(rows)
    {
      found := id in rows;
      if found {
        var row := rows[id].(mainUrl := Some(mainUrl));
        if contactUrl.Some? {
          row := row.(contactUrl := contactUrl);
        }
        rows := rows[id := row];
        cache := None;
      }
    }

    method ClearDomains()
      modifies `rows, `cache
      ensures Valid() && rows == map[]
    {
      rows := map[];
      cache := None;
    }

    /** Replaces the whole catalog; entries with the same key collapse to one row and the last one wins. */
    method ReplaceCatalog(entries: seq<DomainRow>) returns (count: nat)
      modifies this
      ensures Valid() && nextId == old(nextId) + count
      ensures exists deduped :: CollapsedTo(entries, deduped) && count == |deduped| && rows == Numbered(deduped, old(nextId))
    {
      var deduped := CollapseEntries(entries);
      rows := Numbered(deduped, nextId);
      nextId := nextId + |deduped|;
      cache := None;
      count := |deduped|;
    }
  }

  predicate Matches(stored: DomainRow, row: DomainRow) {
    if Truthy(row.externalId) then stored.externalId == row.externalId
    else Truthy(row.mainUrl) && stored.mainUrl == row.mainUrl
  }
}
