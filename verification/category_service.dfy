/**
 * The category list of the store's web front end: the projection of the
 * operation server's custom categories into the categories the side bar
 * shows, the fallback to the built-in list on error, and the built-in list.
 *
 * The HTTP request, its retries, throttling and caching are not part of this
 * model: the server's answer is a Result, a failure standing for a request
 * that failed after its retries.
 */
module CategoryService {
  import opened Wrappers

  /** A category as the operation server sends it. */
  datatype CustomCategory = CustomCategory(name: string, icon: seq<string>, show: bool, apps: seq<string>)

  /** A category as the front end shows it; the built-in ones carry no apps. */
  datatype Category = Category(id: string, title: string, icon: seq<string>, apps: Option<seq<string>>)

  /** The request failed after its retries, or its answer could not be used. */
  datatype FetchError = FetchError

  /** The decimal digit for d. */
  function DigitChar(d: nat): (c: char)
    requires d < 10
    ensures '0' <= c <= '9'
  {
    ('0' as int + d) as char
  }

  /** Number.prototype.toString for a non-negative integer: its decimal digits, with no leading zero. */
  function DecimalString(n: nat): (s: string)
    ensures |s| >= 1
    ensures forall i :: 0 <= i < |s| ==> '0' <= s[i] <= '9'
    ensures s[0] == '0' ==> n == 0 && s == "0"
    decreases n
  {
    if n < 10 then [DigitChar(n)] else DecimalString(n / 10) + [DigitChar(n % 10)]
  }

  /** The value of a string of decimal digits. */
  function DecimalValue(s: string): nat
    requires forall i :: 0 <= i < |s| ==> '0' <= s[i] <= '9'
    decreases |s|
  {
    if s == [] then 0 else DecimalValue(s[..|s| - 1]) * 10 + (s[|s| - 1] as int - '0' as int)
  }

  /** Reading back the decimal string of n gives n. */
  lemma {:induction false} DecimalRoundTrip(n: nat)
    ensures DecimalValue(DecimalString(n)) == n
    decreases n
  {
    if n >= 10 {
      DecimalRoundTrip(n / 10);
      var s := DecimalString(n);
      assert s[..|s| - 1] == DecimalString(n / 10);
    }
  }

  /** Different numbers have different decimal strings. */
  lemma DecimalStringInjective(m: nat, n: nat)
    requires DecimalString(m) == DecimalString(n)
    ensures m == n
  {
    DecimalRoundTrip(m);
    DecimalRoundTrip(n);
  }

  /** `ccs.filter(c => c.show)`. */
  function Shown(ccs: seq<CustomCategory>): (r: seq<CustomCategory>)
    ensures |r| <= |ccs|
    ensures forall c | c in r :: c.show && c in ccs
    ensures forall c | c in ccs && c.show :: c in r
  {
    if ccs == [] then []
    else (if ccs[0].show then [ccs[0]] else []) + Shown(ccs[1..])
  }

  /** The input positions of the shown entries, in increasing order. */
  function ShownIndices(ccs: seq<CustomCategory>): seq<nat>
  {
    if ccs == [] then []
    else (if ccs[0].show then [0] else []) + Shifted(ShownIndices(ccs[1..]))
  }

  /** Each position one further on. */
  function Shifted(idx: seq<nat>): (r: seq<nat>)
    ensures |r| == |idx| && forall k :: 0 <= k < |idx| ==> r[k] == idx[k] + 1
  {
    seq(|idx|, k requires 0 <= k < |idx| => idx[k] + 1)
  }

  /** Each kept entry k is the input entry at position idx[k]. */
  predicate Locates(ccs: seq<CustomCategory>, kept: seq<CustomCategory>, idx: seq<nat>)
  {
    |idx| == |kept| && forall k :: 0 <= k < |idx| ==> idx[k] < |ccs| && kept[k] == ccs[idx[k]]
  }

  predicate StrictlyIncreasing(idx: seq<nat>)
  {
    forall k, l :: 0 <= k < l < |idx| ==> idx[k] < idx[l]
  }

  /** Kept entry k is the input entry at position ShownIndices(ccs)[k]. */
  lemma {:induction false} ShownIndicesLocate(ccs: seq<CustomCategory>)
    ensures Locates(ccs, Shown(ccs), ShownIndices(ccs))
    decreases |ccs|
  {
    if ccs != [] {
      var tail := ccs[1..];
      ShownIndicesLocate(tail);
      var rest, restKept := ShownIndices(tail), Shown(tail);
      var idx, kept := ShownIndices(ccs), Shown(ccs);
      var h := if ccs[0].show then 1 else 0;
      if ccs[0].show {
        assert idx == [0] + Shifted(rest) && kept == [ccs[0]] + restKept;
      } else {
        assert idx == Shifted(rest) && kept == restKept;
      }
      forall k | h <= k < |idx|
        ensures idx[k] < |ccs| && kept[k] == ccs[idx[k]]
      {
        assert idx[k] == rest[k - h] + 1 && kept[k] == restKept[k - h];
        assert restKept[k - h] == tail[rest[k - h]];
      }
    }
  }

  /** The positions of the kept entries increase strictly: the filter keeps the input order. */
  lemma {:induction false} ShownIndicesIncrease(ccs: seq<CustomCategory>)
    ensures StrictlyIncreasing(ShownIndices(ccs))
    decreases |ccs|
  {
    if ccs != [] {
      var tail := ccs[1..];
      ShownIndicesIncrease(tail);
      var rest := ShownIndices(tail);
      assert StrictlyIncreasing(rest);
      var head := if ccs[0].show then [0] else [];
      var idx := ShownIndices(ccs);
      assert idx == head + Shifted(rest);
      forall k, l | 0 <= k < l < |idx|
        ensures idx[k] < idx[l]
      {
        assert idx[l] == rest[l - |head|] + 1;
        if k >= |head| {
          assert idx[k] == rest[k - |head|] + 1;
          assert rest[k - |head|] < rest[l - |head|];
        } else {
          assert idx[k] == 0;
        }
      }
    }
  }

  /** Every shown entry of the input is kept: its position is among ShownIndices(ccs). */
  lemma {:induction false} ShownIndicesComplete(ccs: seq<CustomCategory>)
    ensures forall j :: 0 <= j < |ccs| && ccs[j].show ==> j in ShownIndices(ccs)
    decreases |ccs|
  {
    if ccs != [] {
      var tail := ccs[1..];
      ShownIndicesComplete(tail);
      var rest := ShownIndices(tail);
      var head := if ccs[0].show then [0] else [];
      var idx := ShownIndices(ccs);
      assert idx == head + Shifted(rest);
      forall j | 0 <= j < |ccs| && ccs[j].show
        ensures j in idx
      {
        if j > 0 {
          assert tail[j - 1] == ccs[j];
          var k :| 0 <= k < |rest| && rest[k] == j - 1;
          assert idx[|head| + k] == j;
        }
      }
    }
  }

  /**
   * The filter keeps exactly the shown entries in their input order: the
   * kept entry k is the input entry at position ShownIndices(ccs)[k], these
   * positions increase strictly, and every shown entry's position is among them.
   */
  lemma ShownIsOrderedSelection(ccs: seq<CustomCategory>)
    ensures Locates(ccs, Shown(ccs), ShownIndices(ccs))
    ensures StrictlyIncreasing(ShownIndices(ccs))
    ensures forall j :: 0 <= j < |ccs| && ccs[j].show ==> j in ShownIndices(ccs)
  {
    ShownIndicesLocate(ccs);
    ShownIndicesIncrease(ccs);
    ShownIndicesComplete(ccs);
  }

  /** The icon paths of a server category, made absolute on the server. */
  function IconUrls(server: string, icons: seq<string>): seq<string>
  {
    seq(|icons|, i requires 0 <= i < |icons| => server + "/images/" + icons[i])
  }

  /** The category built from the kept entry at position index. */
  function ToCategory(server: string, c: CustomCategory, index: nat): Category
  {
    Category(DecimalString(index), c.name, IconUrls(server, c.icon), Some(c.apps))
  }

  /** The `map` step of getList: defaults for an empty list, else the shown entries numbered from 0. */
  function Project(server: string, ccs: seq<CustomCategory>): (r: seq<Category>)
    ensures |r| == (if |ccs| == 0 then |DefaultCategoryNames| else |Shown(ccs)|)
    ensures forall k :: 0 <= k < |r| ==> (r[k].apps.Some? <==> |ccs| > 0)
  {
    if |ccs| == 0 then MakeDefaultCategory()
    else
      var kept := Shown(ccs);
      seq(|kept|, k requires 0 <= k < |kept| => ToCategory(server, kept[k], k))
  }

  /**
   * getList as a function of the server's answer: any error falls back to the
   * defaults. A category carries apps exactly when it came from a non-empty
   * answer, and the list is empty only for a non-empty answer with nothing shown.
   */
  function GetList(server: string, response: Result<seq<CustomCategory>, FetchError>): (r: seq<Category>)
    ensures forall k :: 0 <= k < |r| ==> (r[k].apps.Some? <==> response.Success? && |response.value| > 0)
    ensures |r| == 0 ==> response.Success? && |response.value| > 0 && forall c | c in response.value :: !c.show
  {
    match response
    case Failure(_) => MakeDefaultCategory()
    case Success(ccs) => Project(server, ccs)
  }

  /** The built-in categories, in the order the side bar lists them. */
  const DefaultCategoryNames: seq<string> :=
    ["internet", "office", "development", "reading", "graphics", "game",
     "music", "system", "video", "chat", "others"]

  /** A built-in category: its name as id and title, its two bundled icons, no apps. */
  function DefaultCategory(c: string): Category
  {
    Category(c, c, ["/assets/category/" + c + ".svg", "/assets/category/" + c + "_active.svg"], None)
  }

  /** makeDefaultCategory: the eleven built-in categories, in order, with distinct ids. */
  function MakeDefaultCategory(): (r: seq<Category>)
    ensures |r| == |DefaultCategoryNames| == 11
    ensures forall i :: 0 <= i < |r| ==>
      && r[i].id == DefaultCategoryNames[i]
      && r[i].title == r[i].id
      && r[i].icon == ["/assets/category/" + r[i].id + ".svg", "/assets/category/" + r[i].id + "_active.svg"]
      && r[i].apps.None?
    ensures forall i, j :: 0 <= i < j < |r| ==> r[i].id != r[j].id
  {
    seq(|DefaultCategoryNames|, i requires 0 <= i < |DefaultCategoryNames| => DefaultCategory(DefaultCategoryNames[i]))
  }

  /** An empty answer from the server gives exactly the built-in list. */
  lemma EmptyAnswerGivesDefaults(server: string)
    ensures GetList(server, Success([])) == MakeDefaultCategory()
  {
  }

  /** A failed request gives exactly the built-in list. */
  lemma ErrorGivesDefaults(server: string, e: FetchError)
    ensures GetList(server, Failure(e)) == MakeDefaultCategory()
  {
  }

  /**
   * A non-empty answer gives one category per shown entry, so never more
   * categories than entries; an answer with nothing shown gives an empty
   * list, not the defaults.
   */
  lemma ProjectionKeepsShownCount(server: string, ccs: seq<CustomCategory>)
    requires |ccs| > 0
    ensures |GetList(server, Success(ccs))| == |Shown(ccs)| <= |ccs|
    ensures (forall c | c in ccs :: !c.show) ==> GetList(server, Success(ccs)) == []
  {
    if |Shown(ccs)| > 0 {
      assert Shown(ccs)[0] in Shown(ccs);
    }
  }

  /**
   * Category k of a non-empty answer comes from the k-th shown entry: its
   * position as decimal id, its name as title, its apps copied and its icons,
   * as many and in the same order, prefixed with the server's image path.
   */
  lemma ProjectionMapsFields(server: string, ccs: seq<CustomCategory>, k: nat)
    requires |ccs| > 0 && k < |Shown(ccs)|
    ensures var r := GetList(server, Success(ccs));
      var c := Shown(ccs)[k];
      && k < |r|
      && r[k].id == DecimalString(k)
      && r[k].title == c.name
      && r[k].apps == Some(c.apps)
      && |r[k].icon| == |c.icon|
      && (forall i :: 0 <= i < |c.icon| ==> r[k].icon[i] == server + "/images/" + c.icon[i])
  {
    var r := GetList(server, Success(ccs));
    assert r[k] == ToCategory(server, Shown(ccs)[k], k);
  }

  /** The ids of a non-empty answer's categories are pairwise distinct. */
  lemma ProjectionIdsDistinct(server: string, ccs: seq<CustomCategory>)
    requires |ccs| > 0
    ensures var r := GetList(server, Success(ccs));
      forall k, l :: 0 <= k < l < |r| ==> r[k].id != r[l].id
  {
    var r := GetList(server, Success(ccs));
    forall k, l | 0 <= k < l < |r|
      ensures r[k].id != r[l].id
    {
      if r[k].id == r[l].id {
        DecimalStringInjective(k, l);
      }
    }
  }
}
