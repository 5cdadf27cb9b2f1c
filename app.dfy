/** The stateful pieces of js_basics/app.js: the hash router over the page's
    views, the per-button click counters, the simulated posts fetch, and the
    feature gate that loads the `includes` polyfill only when the probe fails. */
module App {
  import ArrayIncludes

  // ----- router -----

  /** One `[data-view]` element: its id, its `hidden` flag, and whether its class
      list holds `is-active`. */
  datatype View = View(id: string, hidden: bool, isActive: bool)

  /** The location fragment turned into a routing token: the fragment without its
      first character (the `#`), or "home" when nothing is left. */
  function RouteToken(hash: string): (token: string)
    ensures token != ""
    ensures |hash| > 1 ==> token == hash[1..]
    ensures |hash| <= 1 ==> token == "home"
  {
    var rest := if hash == "" then "" else hash[1..];
    if rest == "" then "home" else rest
  }

  /** A link's `#id` fragment routes back to `id`. */
  lemma FragmentRoundTrip(id: string)
    requires id != ""
    ensures RouteToken("#" + id) == id
  {
  }

  /** One view after `show(token)` has visited it. */
  function Activated(v: View, token: string): View {
    v.(hidden := v.id != token, isActive := v.id == token)
  }

  /** The whole view collection after `show(token)`. */
  function Shown(vs: seq<View>, token: string): seq<View> {
    seq(|vs|, i requires 0 <= i < |vs| => Activated(vs[i], token))
  }

  /** How many views are not hidden. */
  function VisibleCount(vs: seq<View>): nat {
    if vs == [] then 0 else (if vs[0].hidden then 0 else 1) + VisibleCount(vs[1..])
  }

  predicate DistinctIds(vs: seq<View>) {
    forall i, j :: 0 <= i < j < |vs| ==> vs[i].id != vs[j].id
  }

  /** After `show`, a view is hidden exactly when its id differs from the token,
      carries `is-active` exactly when it is not hidden, and keeps its place and id. */
  lemma ShowSetsVisibility(vs: seq<View>, token: string)
    ensures |Shown(vs, token)| == |vs|
    ensures forall i :: 0 <= i < |vs| ==>
      var w := Shown(vs, token)[i];
      w.id == vs[i].id && (w.hidden <==> vs[i].id != token) && (w.isActive <==> !w.hidden)
  {
  }

  lemma ShowIsIdempotent(vs: seq<View>, token: string)
    ensures Shown(Shown(vs, token), token) == Shown(vs, token)
  {
  }

  /** Showing a token no view has hides every view. */
  lemma {:induction false} UnmatchedTokenHidesAll(vs: seq<View>, token: string)
    requires forall i :: 0 <= i < |vs| ==> vs[i].id != token
    ensures VisibleCount(Shown(vs, token)) == 0
  {
    if vs != [] {
      assert Shown(vs, token)[1..] == Shown(vs[1..], token);
      UnmatchedTokenHidesAll(vs[1..], token);
    }
  }

  /** With distinct ids, showing an existing id leaves exactly one view visible. */
  lemma {:induction false} ExactlyOneVisible(vs: seq<View>, token: string)
    requires DistinctIds(vs)
    requires exists i :: 0 <= i < |vs| && vs[i].id == token
    ensures VisibleCount(Shown(vs, token)) == 1
  {
    var r := Shown(vs, token);
    assert r[1..] == Shown(vs[1..], token);
    if vs[0].id == token {
      UnmatchedTokenHidesAll(vs[1..], token);
    } else {
      var i :| 0 <= i < |vs| && vs[i].id == token;
      assert vs[1..][i - 1].id == token;
      ExactlyOneVisible(vs[1..], token);
    }
  }

  /** At startup with an empty fragment, the "home" view, and only it, is shown. */
  lemma HomeShownOnEmptyFragment(vs: seq<View>, home: nat)
    requires DistinctIds(vs)
    requires home < |vs| && vs[home].id == "home"
    ensures !Shown(vs, RouteToken(""))[home].hidden
    ensures VisibleCount(Shown(vs, RouteToken(""))) == 1
  {
    ExactlyOneVisible(vs, "home");
  }

  /** The view collection captured at startup, and the router over it. */
  class Router {
    const views: array<View>

    /** Capture the views and route once on the fragment present at load. */
    constructor (initial: seq<View>, hash: string)
      ensures fresh(views)
      ensures views[..] == Shown(initial, RouteToken(hash))
    {
      views := new View[|initial|](i requires 0 <= i < |initial| => initial[i]);
      new;
      OnHashChange(hash);
    }

    method Show(token: string)
      modifies views
      ensures views[..] == Shown(old(views[..]), token)
    {
      var i := 0;
      while i < views.Length
        invariant 0 <= i <= views.Length
        invariant forall j :: 0 <= j < i ==> views[j] == Activated(old(views[j]), token)
        invariant forall j :: i <= j < views.Length ==> views[j] == old(views[j])
      {
        var v := views[i];
        var active := v.id == token;
        views[i] := v.(hidden := !active, isActive := active);
        i := i + 1;
      }
    }

    method OnHashChange(hash: string)
      modifies views
      ensures views[..] == Shown(old(views[..]), RouteToken(hash))
    {
      Show(RouteToken(hash));
    }
  }

  // ----- counter -----

  function DigitChar(d: nat): char
    requires d < 10
  {
    "0123456789"[d]
  }

  predicate AllDigits(s: string) {
    forall i :: 0 <= i < |s| ==> '0' <= s[i] <= '9'
  }

  /** The text a non-negative integer number converts to. */
  function Decimal(n: nat): (s: string)
    ensures s != [] && AllDigits(s)
    ensures s[0] == '0' ==> n == 0
    decreases n
  {
    if n < 10 then [DigitChar(n)] else Decimal(n / 10) + [DigitChar(n % 10)]
  }

  /** The number a string of decimal digits denotes. */
  function DecimalValue(s: string): nat
    requires AllDigits(s)
  {
    if s == [] then 0
    else DecimalValue(s[..|s| - 1]) * 10 + (s[|s| - 1] as int - '0' as int)
  }

  /** A counter's display reads back as its count. */
  lemma {:induction false} DecimalRoundTrip(n: nat)
    ensures DecimalValue(Decimal(n)) == n
    decreases n
  {
    if n >= 10 {
      var s := Decimal(n);
      assert s[..|s| - 1] == Decimal(n / 10);
      DecimalRoundTrip(n / 10);
    }
  }

  /** One `[data-increment]` button: its private count and its span's text. */
  class Counter {
    var count: nat
    var display: string

    constructor (initialText: string)
      ensures count == 0 && display == initialText
    {
      count := 0;
      display := initialText;
    }

    method Click()
      modifies this
      ensures count == old(count) + 1
      ensures display == Decimal(count)
    {
      count := count + 1;
      display := Decimal(count);
    }
  }

  /** Clicks on one button leave every other counter as it was. */
  method CountersAreIndependent(a: Counter, b: Counter)
    requires a != b
    modifies a, b
    ensures a.count == old(a.count) + 2 && a.display == Decimal(a.count)
    ensures b.count == old(b.count) + 1 && b.display == Decimal(b.count)
    ensures DecimalValue(a.display) == a.count && DecimalValue(b.display) == b.count
  {
    a.Click();
    b.Click();
    a.Click();
    DecimalRoundTrip(a.count);
    DecimalRoundTrip(b.count);
  }

  // ----- simulated posts fetch -----

  datatype Post = Post(id: nat, title: string, body: string)

  /** The hard-coded response of the simulated API: three posts, ids 1, 2, 3 in order. */
  function FixedPosts(): (ps: seq<Post>)
    ensures |ps| == 3
    ensures forall i :: 0 <= i < |ps| ==> ps[i].id == i + 1
  {
    [ Post(1, "CSR render", "Rendered on the client after fetch. Modified for Demo"),
      Post(2, "SSR render", "Rendered on the server before send."),
      Post(3, "SSG render", "Rendered at build time; cached on CDN.") ]
  }

  /** The template one post is rendered with (no escaping): an `<li>` element
      from which the title and the body can be read back at fixed offsets. */
  function ListItem(p: Post): (r: string)
    ensures |r| == |p.title| + |p.body| + 28
    ensures r[..12] == "<li><strong>" && r[|r| - 5..] == "</li>"
    ensures r[12..12 + |p.title|] == p.title
    ensures r[12 + |p.title|..23 + |p.title|] == ":</strong> "
    ensures r[|r| - 5 - |p.body|..|r| - 5] == p.body
  {
    "<li><strong>" + p.title + ":</strong> " + p.body + "</li>"
  }

  /** `posts.map(ListItem).join('')`: empty exactly for no posts, otherwise
      starting with the first post's item and ending with an `</li>`. */
  function RenderPosts(ps: seq<Post>): (r: string)
    ensures r == "" <==> ps == []
    ensures ps != [] ==> |ListItem(ps[0])| <= |r| && r[..|ListItem(ps[0])|] == ListItem(ps[0])
    ensures ps != [] ==> |r| >= 5 && r[|r| - 5..] == "</li>"
  {
    if ps == [] then "" else ListItem(ps[0]) + RenderPosts(ps[1..])
  }

  /** Rendering distributes over concatenation of post lists. */
  lemma {:induction false} RenderAppend(a: seq<Post>, b: seq<Post>)
    ensures RenderPosts(a + b) == RenderPosts(a) + RenderPosts(b)
  {
    if a == [] {
      assert a + b == b;
    } else {
      assert (a + b)[0] == a[0];
      assert (a + b)[1..] == a[1..] + b;
      RenderAppend(a[1..], b);
    }
  }

  /** Every post's item stands in the markup after all earlier posts' items and
      before all later ones. */
  lemma {:induction false} RenderSplitsAt(ps: seq<Post>, i: nat)
    requires i < |ps|
    ensures RenderPosts(ps) == RenderPosts(ps[..i]) + (ListItem(ps[i]) + RenderPosts(ps[i + 1..]))
  {
    var rest := ps[i..];
    assert ps == ps[..i] + rest;
    RenderAppend(ps[..i], rest);
    assert rest != [] && rest[0] == ps[i] && rest[1..] == ps[i + 1..];
  }

  /** The list ends up as the three items in id order 1, 2, 3. */
  lemma FixedPostsMarkup()
    ensures |FixedPosts()| == 3
    ensures forall i :: 0 <= i < 3 ==> FixedPosts()[i].id == i + 1
    ensures RenderPosts(FixedPosts()) ==
      ListItem(FixedPosts()[0]) + ListItem(FixedPosts()[1]) + ListItem(FixedPosts()[2])
  {
  }

  const LoadingLabel: string := "Loading\U{2026}"
  const ReloadLabel: string := "Reload"

  /** The `load-posts` button and the `posts` list it fills. */
  class PostsWidget {
    var disabled: bool
    var buttonText: string
    var listHtml: string

    constructor (buttonText: string, listHtml: string)
      ensures !disabled && this.buttonText == buttonText && this.listHtml == listHtml
    {
      disabled := false;
      this.buttonText := buttonText;
      this.listHtml := listHtml;
    }

    /** The click handler up to its `await`: the button goes busy. */
    method OnClick()
      modifies this
      ensures disabled && buttonText == LoadingLabel
      ensures listHtml == old(listHtml)
    {
      disabled := true;
      buttonText := LoadingLabel;
    }

    /** The handler's continuation once the delay has elapsed: the list is
        rendered, then the button is restored. */
    method OnDelayElapsed()
      modifies this
      ensures !disabled && buttonText == ReloadLabel
      ensures listHtml == RenderPosts(FixedPosts())
    {
      listHtml := RenderPosts(FixedPosts());
      buttonText := ReloadLabel;
      disabled := false;
    }
  }

  // ----- feature detection and polyfill loading -----

  /** The array the gate probes with, `['a','b','c']`. */
  function Sample(): seq<ArrayIncludes.Value> {
    [ArrayIncludes.Str("a"), ArrayIncludes.Str("b"), ArrayIncludes.Str("c")]
  }

  /** `['a','b','c'].includes('b')` under a given prototype slot. */
  function TestResult(slot: ArrayIncludes.Slot): ArrayIncludes.Completion {
    ArrayIncludes.Call(slot, Sample(), ArrayIncludes.Str("b"), 0)
  }

  /** The test call returns true whenever some function is installed, and throws
      otherwise. */
  lemma TestResultTrueWhenCallable(slot: ArrayIncludes.Slot)
    ensures slot.Function? ==> TestResult(slot) == ArrayIncludes.Normal(true)
    ensures !slot.Function? ==> TestResult(slot) == ArrayIncludes.Throw(ArrayIncludes.TypeError)
  {
    assert ArrayIncludes.SameValueZero(Sample()[1], ArrayIncludes.Str("b"));
  }

  function BoolText(b: bool): string {
    if b then "true" else "false"
  }

  /** The text written to `polyfill-output`. Both booleans can be read back:
      the probe from the character after the fixed prefix, the test result from
      the last four characters. */
  function ReportText(featureOK: bool, result: bool): (r: string)
    ensures |r| > 36 && r[..36] == "Array.prototype.includes supported? "
    ensures featureOK <==> r[36] == 't'
    ensures result <==> r[|r| - 4..] == "true"
  {
    var tail := BoolText(result);
    var r := "Array.prototype.includes supported? " + BoolText(featureOK) + ". Test result: " + tail;
    assert r[|r| - 4..] == tail[|tail| - 4..];
    r
  }

  /** The `polyfill-test` button's output element and the prototype it probes. */
  class PolyfillDemo {
    const proto: ArrayIncludes.ArrayPrototype
    var output: string

    constructor (proto: ArrayIncludes.ArrayPrototype, output: string)
      ensures this.proto == proto && this.output == output
    {
      this.proto := proto;
      this.output := output;
    }

    /** One click. The module load is attempted iff `'includes' in Array.prototype`
        is false; `loadSucceeds` is the outcome of the dynamic import. The output
        reports the probe taken before the load; when the test call throws, the
        handler stops and the output keeps its old text. */
    method OnTestClick(loadSucceeds: bool) returns (loadAttempted: bool)
      modifies this, proto
      ensures loadAttempted <==> old(proto.includes) == ArrayIncludes.Absent
      ensures proto.includes ==
        if loadAttempted && loadSucceeds then ArrayIncludes.AfterInstall(old(proto.includes))
        else old(proto.includes)
      ensures var r := TestResult(proto.includes);
        output == if r.Normal? then ReportText(!loadAttempted, r.value) else old(output)
    {
      var featureOK := proto.includes != ArrayIncludes.Absent;
      loadAttempted := !featureOK;
      if loadAttempted && loadSucceeds {
        proto.EvaluatePolyfillModule();
      }
      var result: ArrayIncludes.Completion;
      match proto.includes {
        case Function(Polyfill) =>
          var arr := new ArrayIncludes.Value[3](i requires 0 <= i < 3 => Sample()[i]);
          assert arr[..] == Sample();
          result := ArrayIncludes.Includes(arr, ArrayIncludes.Str("b"), 0);
        case Function(Native) =>
          result := ArrayIncludes.Normal(ArrayIncludes.StandardIncludes(Sample(), ArrayIncludes.Str("b"), 0));
        case _ =>
          result := ArrayIncludes.Throw(ArrayIncludes.TypeError);
      }
      if result.Normal? {
        output := ReportText(featureOK, result.value);
      }
    }
  }

  /** With `includes` already a function, `OnTestClick` attempts no load and writes
      `ReportText(true, r.value)` for the test call's result `r`: the report says
      supported and the test passed. */
  lemma PresentCapabilityReportsTrue(impl: ArrayIncludes.Implementation)
    ensures var r := TestResult(ArrayIncludes.Function(impl));
      r == ArrayIncludes.Normal(true) &&
      ReportText(true, r.value) == "Array.prototype.includes supported? true. Test result: true"
  {
    TestResultTrueWhenCallable(ArrayIncludes.Function(impl));
    assert ReportText(true, true) ==
      "Array.prototype.includes supported? " + "true" + ". Test result: " + "true";
  }

  /** With `includes` absent, `OnTestClick` attempts the load. When it succeeds
      the slot becomes `AfterInstall(Absent)`, the polyfill, and the output becomes
      `ReportText(false, r.value)`: not supported, test passed. When it fails the
      slot stays absent, the test call throws and the output is left as it was. */
  lemma AbsentCapabilityOutcomes()
    ensures ArrayIncludes.AfterInstall(ArrayIncludes.Absent) == ArrayIncludes.Function(ArrayIncludes.Polyfill)
    ensures var r := TestResult(ArrayIncludes.AfterInstall(ArrayIncludes.Absent));
      r == ArrayIncludes.Normal(true) &&
      ReportText(false, r.value) == "Array.prototype.includes supported? false. Test result: true"
    ensures TestResult(ArrayIncludes.Absent).Throw?
  {
    TestResultTrueWhenCallable(ArrayIncludes.Function(ArrayIncludes.Polyfill));
    assert ReportText(false, true) ==
      "Array.prototype.includes supported? " + "false" + ". Test result: " + "true";
  }
}
