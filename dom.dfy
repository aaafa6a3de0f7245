/** A small CSS-like search over a parsed HTML tree: a query is split on
    white space into selectors (`#id`, `.class` or a tag name), a node
    matches a selector on its exact tag, `id` attribute or whole `class`
    attribute, and the tree is searched in pre-order. With several
    selectors only the last one counts: each is searched from the root and
    its result replaces the previous one. */
module Dom {

  import opened Wrappers
  import opened JsString

  /** A `ParsedQuery`, which sets exactly one of its three fields. */
  datatype Selector = Id(id: string) | ClassName(className: string) | Tag(tag: string)

  /** A node of the parsed document: its tag, its kind of element, its
      attributes and its children, either of which may be absent. */
  datatype HtmlNode = HtmlNode(tag: string, element: string,
                               attr: Option<map<string, string>>, child: Children)

  /** `node.child`: absent, or the list of child nodes. */
  datatype Children = Absent | Present(nodes: seq<HtmlNode>)

  // ---------------------------------------------------------------------
  // parseQuerySelector
  // ---------------------------------------------------------------------

  /** The first white-space character at or after `from`, or the end. */
  function SpaceFrom(s: string, from: nat): (k: nat)
    requires from <= |s|
    ensures from <= k <= |s|
    ensures forall j | from <= j < k :: !IsWhitespace(s[j])
    ensures k < |s| ==> IsWhitespace(s[k])
    decreases |s| - from
  {
    if from == |s| || IsWhitespace(s[from]) then from else SpaceFrom(s, from + 1)
  }

  /** The end of the white-space run at `from`. */
  function SpaceEnd(s: string, from: nat): (k: nat)
    requires from <= |s|
    ensures from <= k <= |s|
    ensures forall j | from <= j < k :: IsWhitespace(s[j])
    ensures k < |s| ==> !IsWhitespace(s[k])
    decreases |s| - from
  {
    if from < |s| && IsWhitespace(s[from]) then SpaceEnd(s, from + 1) else from
  }

  /** `s.split(/\s+/)`: the text before the leftmost run of white space,
      then the split of what follows the whole run. */
  function SplitSpaces(s: string): (r: seq<string>)
    ensures |r| >= 1
    decreases |s|
  {
    var i := SpaceFrom(s, 0);
    if i == |s| then [s]
    else [s[..i]] + SplitSpaces(s[SpaceEnd(s, i)..])
  }

  /** One selector: `switch (selector.trim()[0])`, keeping the rest of the
      untrimmed selector after a `#` or a `.`. */
  function ParseSelector(selector: string): (r: Selector)
    ensures selector != "" && selector[0] == '#' && !IsWhitespace(selector[0]) ==> r == Id(selector[1..])
  {
    var trimmed := Trim(selector);
    if trimmed != [] && trimmed[0] == '#' then Id(selector[1..])
    else if trimmed != [] && trimmed[0] == '.' then ClassName(selector[1..])
    else Tag(selector)
  }

  /** One selector per word, in order. */
  function ParseWords(words: seq<string>): (r: seq<Selector>)
    ensures |r| == |words|
  {
    if words == [] then [] else [ParseSelector(words[0])] + ParseWords(words[1..])
  }

  /** The `i`-th selector is the `i`-th word parsed. */
  lemma {:induction false} ParseWordsAt(words: seq<string>, i: nat)
    requires i < |words|
    ensures ParseWords(words)[i] == ParseSelector(words[i])
  {
    var r := ParseWords(words);
    assert r == [ParseSelector(words[0])] + ParseWords(words[1..]);
    if i > 0 {
      ParseWordsAt(words[1..], i - 1);
      assert r[i] == ParseWords(words[1..])[i - 1];
    }
  }

  /** `parseQuerySelector(query)`: one selector per white-space separated
      word of the trimmed query. */
  function ParseQuerySelector(query: string): (r: seq<Selector>)
    ensures |r| >= 1
  {
    ParseWords(SplitSpaces(Trim(query)))
  }

  /** An empty or blank query is a single empty tag selector, which matches
      nothing. */
  lemma ParseBlank(query: string)
    requires Trim(query) == ""
    ensures ParseQuerySelector(query) == [Tag("")]
  {
    assert SplitSpaces("") == [""];
  }

  /** A word: not empty and free of white space. */
  predicate IsWord(w: string)
  {
    w != "" && forall j | 0 <= j < |w| :: !IsWhitespace(w[j])
  }

  /** Words joined by single spaces split back into the same words. */
  lemma {:induction false} SplitJoin(words: seq<string>)
    requires |words| >= 1 && forall i | 0 <= i < |words| :: IsWord(words[i])
    ensures SplitSpaces(Join(words, " ")) == words
  {
    var w := words[0];
    if |words| == 1 {
      SpaceFromIs(w, 0, |w|);
    } else {
      var rest := Join(words[1..], " ");
      var s := Join(words, " ");
      assert s == w + " " + rest;
      JoinEnds(words[1..]);
      forall j | 0 <= j < |w|
        ensures !IsWhitespace(s[j])
      {
        assert s[j] == w[j];
      }
      SpaceFromIs(s, 0, |w|);
      SpaceEndIs(s, |w|, |w| + 1);
      assert s[..|w|] == w;
      assert s[|w| + 1..] == rest;
      SplitJoin(words[1..]);
    }
  }

  /** A join of words starts and ends with a non-blank character. */
  lemma {:induction false} JoinEnds(words: seq<string>)
    requires |words| >= 1 && forall i | 0 <= i < |words| :: IsWord(words[i])
    ensures var s := Join(words, " "); s != "" && !IsWhitespace(s[0]) && !IsWhitespace(s[|s| - 1])
  {
    var w := words[0];
    assert IsWord(w);
    assert !IsWhitespace(w[0]) && !IsWhitespace(w[|w| - 1]);
    if |words| > 1 {
      JoinEnds(words[1..]);
      var rest := Join(words[1..], " ");
      assert Join(words, " ") == w + " " + rest;
      assert (w + " " + rest)[0] == w[0];
      assert (w + " " + rest)[|w| + 1 + |rest| - 1] == rest[|rest| - 1];
    }
  }

  lemma SpaceFromIs(s: string, from: nat, k: nat)
    requires from <= k <= |s|
    requires forall j | from <= j < k :: !IsWhitespace(s[j])
    requires k == |s| || IsWhitespace(s[k])
    ensures SpaceFrom(s, from) == k
  {
  }

  lemma SpaceEndIs(s: string, from: nat, k: nat)
    requires from <= k <= |s|
    requires forall j | from <= j < k :: IsWhitespace(s[j])
    requires k == |s| || !IsWhitespace(s[k])
    ensures SpaceEnd(s, from) == k
  {
  }

  /** The text a selector is written as. */
  function Render(s: Selector): string
  {
    match s
    case Id(id) => "#" + id
    case ClassName(c) => "." + c
    case Tag(t) => t
  }

  /** A selector that can be written in a query: no white space in its
      name, and a tag that is not empty and does not start like an id or a
      class selector. */
  predicate Writable(s: Selector)
  {
    match s
    case Id(id) => forall j | 0 <= j < |id| :: !IsWhitespace(id[j])
    case ClassName(c) => forall j | 0 <= j < |c| :: !IsWhitespace(c[j])
    case Tag(t) => IsWord(t) && t[0] != '#' && t[0] != '.'
  }

  /** The written form of a list of selectors. */
  function Query(sels: seq<Selector>): (words: seq<string>)
    ensures |words| == |sels|
    ensures forall i | 0 <= i < |sels| :: words[i] == Render(sels[i])
  {
    seq(|sels|, i requires 0 <= i < |sels| => Render(sels[i]))
  }

  /** A word is trimmed to itself, and a selector parses back from its
      written form. */
  lemma ParseRender(s: Selector)
    requires Writable(s)
    ensures IsWord(Render(s)) && ParseSelector(Render(s)) == s
  {
    var w := Render(s);
    forall j | 0 <= j < |w|
      ensures !IsWhitespace(w[j])
    {
      if !s.Tag? {
        assert w[j] == if j == 0 then w[0] else (if s.Id? then s.id else s.className)[j - 1];
      }
    }
    TrimWord(w);
    if s.Id? {
      assert w[1..] == s.id;
    } else if s.ClassName? {
      assert w[1..] == s.className;
    }
  }

  /** Trimming leaves a text that starts and ends with non-blank characters
      unchanged. */
  lemma TrimWord(w: string)
    requires w != "" && !IsWhitespace(w[0]) && !IsWhitespace(w[|w| - 1])
    ensures Trim(w) == w
  {
  }

  /** Words joined by single spaces parse one selector per word. */
  lemma ParseJoined(words: seq<string>, q: string)
    requires |words| >= 1 && forall i | 0 <= i < |words| :: IsWord(words[i])
    requires q == Join(words, " ")
    ensures |ParseQuerySelector(q)| == |words|
    ensures forall i | 0 <= i < |words| :: ParseQuerySelector(q)[i] == ParseSelector(words[i])
  {
    JoinEnds(words);
    TrimWord(q);
    SplitJoin(words);
    forall i | 0 <= i < |words|
      ensures ParseQuerySelector(q)[i] == ParseSelector(words[i])
    {
      ParseWordsAt(words, i);
    }
  }

  /** Selectors written out and joined by spaces parse back to the same
      selectors. */
  lemma ParseQueryRoundTrip(sels: seq<Selector>)
    requires |sels| >= 1 && forall i | 0 <= i < |sels| :: Writable(sels[i])
    ensures ParseQuerySelector(Join(Query(sels), " ")) == sels
  {
    var words := Query(sels);
    forall i | 0 <= i < |sels|
      ensures IsWord(words[i]) && ParseSelector(words[i]) == sels[i]
    {
      ParseRender(sels[i]);
    }
    ParseJoined(words, Join(words, " "));
  }

  // ---------------------------------------------------------------------
  // searchNode and the pre-order search
  // ---------------------------------------------------------------------

  /** `searchNode(node, selector) !== null`: an exact, non-empty tag, `id`
      or whole `class` attribute. */
  predicate Matches(node: HtmlNode, sel: Selector)
  {
    match sel
    case Tag(t) => t != "" && t == node.tag
    case Id(id) => id != "" && node.attr.Some? && "id" in node.attr.value && node.attr.value["id"] == id
    case ClassName(c) => c != "" && node.attr.Some? && "class" in node.attr.value && node.attr.value["class"] == c
  }

  /** The nodes of a tree in pre-order: the node, then each child's tree
      from left to right. */
  function PreOrder(node: HtmlNode): (r: seq<HtmlNode>)
    ensures |r| >= 1 && r[0] == node
    decreases node, 1
  {
    [node] + match node.child { case Present(cs) => PreOrderAll(node, |cs|) case Absent => [] }
  }

  /** The pre-order of the first `n` children of `node`. */
  function PreOrderAll(node: HtmlNode, n: nat): seq<HtmlNode>
    requires node.child.Present? && n <= |node.child.nodes|
    decreases node, 0, n
  {
    if n == 0 then []
    else PreOrderAll(node, n - 1) + PreOrder(node.child.nodes[n - 1])
  }

  /** The pre-order of the children of `node` from the `n`-th on. */
  function PreOrderRest(node: HtmlNode, n: nat): seq<HtmlNode>
    requires node.child.Present? && n <= |node.child.nodes|
    decreases |node.child.nodes| - n
  {
    if n == |node.child.nodes| then []
    else PreOrder(node.child.nodes[n]) + PreOrderRest(node, n + 1)
  }

  /** The pre-order of all children is that of the first `n` followed by
      that of the others. */
  lemma {:induction false} PreOrderSplit(node: HtmlNode, n: nat)
    requires node.child.Present? && n <= |node.child.nodes|
    ensures PreOrderAll(node, |node.child.nodes|) == PreOrderAll(node, n) + PreOrderRest(node, n)
    decreases |node.child.nodes| - n
  {
    if n < |node.child.nodes| {
      PreOrderSplit(node, n + 1);
      PreOrderGrow(node, n);
    }
  }

  lemma {:induction false} PreOrderGrow(node: HtmlNode, n: nat)
    requires node.child.Present? && n < |node.child.nodes|
    ensures PreOrderAll(node, n) + PreOrderRest(node, n)
         == PreOrderAll(node, n + 1) + PreOrderRest(node, n + 1)
  {
    var a := PreOrderAll(node, n);
    var b := PreOrder(node.child.nodes[n]);
    var c := PreOrderRest(node, n + 1);
    assert a + (b + c) == (a + b) + c;
  }

  /** The nodes of a list that match, in order. */
  function Filter(nodes: seq<HtmlNode>, sel: Selector): (r: seq<HtmlNode>)
    ensures |r| <= |nodes|
  {
    if nodes == [] then []
    else Filter(nodes[..|nodes| - 1], sel) + (if Matches(nodes[|nodes| - 1], sel) then [nodes[|nodes| - 1]] else [])
  }

  /** The filtered list holds exactly the matching nodes of the list. */
  lemma {:induction false} FilterMembers(nodes: seq<HtmlNode>, sel: Selector)
    ensures forall x :: x in Filter(nodes, sel) <==> x in nodes && Matches(x, sel)
  {
    if nodes != [] {
      var init := nodes[..|nodes| - 1];
      FilterMembers(init, sel);
      assert nodes == init + [nodes[|nodes| - 1]];
    }
  }

  /** A list without a matching node filters to nothing. */
  lemma {:induction false} FilterNone(nodes: seq<HtmlNode>, sel: Selector)
    requires forall i | 0 <= i < |nodes| :: !Matches(nodes[i], sel)
    ensures Filter(nodes, sel) == []
  {
    if nodes != [] {
      FilterNone(nodes[..|nodes| - 1], sel);
    }
  }

  lemma {:induction false} FilterAppend(a: seq<HtmlNode>, b: seq<HtmlNode>, sel: Selector)
    ensures Filter(a + b, sel) == Filter(a, sel) + Filter(b, sel)
    decreases |b|
  {
    if b == [] {
      assert a + b == a;
    } else {
      assert (a + b)[..|a + b| - 1] == a + b[..|b| - 1];
      FilterAppend(a, b[..|b| - 1], sel);
    }
  }

  /** The first node of the filtered list is the first matching node. */
  lemma {:induction false} FilterFirst(nodes: seq<HtmlNode>, sel: Selector)
    requires Filter(nodes, sel) != []
    ensures exists i | 0 <= i < |nodes| ::
      nodes[i] == Filter(nodes, sel)[0] && Matches(nodes[i], sel)
      && forall j | 0 <= j < i :: !Matches(nodes[j], sel)
  {
    var init := nodes[..|nodes| - 1];
    FilterMembers(init, sel);
    if Filter(init, sel) != [] {
      FilterFirst(init, sel);
      var i :| 0 <= i < |init| && init[i] == Filter(init, sel)[0] && Matches(init[i], sel)
        && forall j | 0 <= j < i :: !Matches(init[j], sel);
      assert Filter(nodes, sel)[0] == Filter(init, sel)[0];
      assert nodes[i] == init[i];
      forall j | 0 <= j < i
        ensures !Matches(nodes[j], sel)
      {
        assert nodes[j] == init[j];
      }
    } else {
      forall j | 0 <= j < |init|
        ensures !Matches(nodes[j], sel)
      {
        assert nodes[j] == init[j] && init[j] in init;
      }
      assert Filter(nodes, sel) == [nodes[|nodes| - 1]];
    }
  }

  /** Every match of `sel` in the tree, in pre-order: the specification of
      `recursiveQueryAll`. Matches nested in matches are included. */
  function AllMatches(node: HtmlNode, sel: Selector): seq<HtmlNode>
  {
    Filter(PreOrder(node), sel)
  }

  /** The first match of `sel` in the tree in pre-order: the specification
      of `recursiveQuery`. */
  function FirstMatch(node: HtmlNode, sel: Selector): Option<HtmlNode>
  {
    if AllMatches(node, sel) == [] then None else Some(AllMatches(node, sel)[0])
  }

  /** The first match is the earliest matching node of the pre-order, and
      there is none exactly when no node of the tree matches. */
  lemma FirstMatchIsFirst(node: HtmlNode, sel: Selector)
    ensures FirstMatch(node, sel).None? <==> forall x | x in PreOrder(node) :: !Matches(x, sel)
    ensures FirstMatch(node, sel).Some? ==> exists i | 0 <= i < |PreOrder(node)| ::
      PreOrder(node)[i] == FirstMatch(node, sel).value && Matches(PreOrder(node)[i], sel)
      && forall j | 0 <= j < i :: !Matches(PreOrder(node)[j], sel)
  {
    FilterMembers(PreOrder(node), sel);
    if AllMatches(node, sel) != [] {
      FilterFirst(PreOrder(node), sel);
    }
  }

  /** The matches of a tree: the node's own, then those among its first
      `n` children's trees. */
  function MatchesUpTo(node: HtmlNode, sel: Selector, n: nat): seq<HtmlNode>
    requires node.child.Present? && n <= |node.child.nodes|
  {
    Filter([node] + PreOrderAll(node, n), sel)
  }

  /** One more child searched adds that child's matches. */
  lemma MatchesStep(node: HtmlNode, sel: Selector, n: nat)
    requires node.child.Present? && n < |node.child.nodes|
    ensures MatchesUpTo(node, sel, n + 1) == MatchesUpTo(node, sel, n) + AllMatches(node.child.nodes[n], sel)
  {
    var a := [node] + PreOrderAll(node, n);
    var b := PreOrder(node.child.nodes[n]);
    assert [node] + PreOrderAll(node, n + 1) == a + b;
    FilterAppend(a, b, sel);
  }

  /** After the last child, the matches of the whole tree. */
  lemma MatchesAll(node: HtmlNode, sel: Selector)
    requires node.child.Present?
    ensures MatchesUpTo(node, sel, |node.child.nodes|) == AllMatches(node, sel)
  {
  }

  /** Before any child, the node's own match. */
  lemma MatchesNone(node: HtmlNode, sel: Selector)
    requires node.child.Present?
    ensures MatchesUpTo(node, sel, 0) == if Matches(node, sel) then [node] else []
  {
    assert [node] + PreOrderAll(node, 0) == [node];
    assert [node][..0] == [];
  }

  /** Once matches were found, searching more children keeps the first. */
  lemma {:induction false} MatchesKeepFirst(node: HtmlNode, sel: Selector, n: nat, m: nat)
    requires node.child.Present? && n <= m <= |node.child.nodes|
    requires MatchesUpTo(node, sel, n) != []
    ensures MatchesUpTo(node, sel, m) != [] && MatchesUpTo(node, sel, m)[0] == MatchesUpTo(node, sel, n)[0]
    decreases m - n
  {
    if n < m {
      MatchesStep(node, sel, n);
      MatchesKeepFirst(node, sel, n + 1, m);
    }
  }

  /** A node that matches is its tree's first match. */
  lemma FirstMatchRoot(node: HtmlNode, sel: Selector)
    requires Matches(node, sel)
    ensures FirstMatch(node, sel) == Some(node)
  {
    assert PreOrder(node) == [node] + PreOrder(node)[1..];
    FilterAppend([node], PreOrder(node)[1..], sel);
  }

  /** A node without children that does not match has no match. */
  lemma FirstMatchLeaf(node: HtmlNode, sel: Selector)
    requires !Matches(node, sel) && node.child.Absent?
    ensures FirstMatch(node, sel) == None
  {
    assert PreOrder(node) == [node];
  }

  // ---------------------------------------------------------------------
  // recursiveQuery, recursiveQueryAll, querySelector, querySelectorAll
  // ---------------------------------------------------------------------

  /** `recursiveQuery(node, selector)`: the node itself if it matches,
      otherwise the first child subtree that has a match. */
  method RecursiveQuery(node: HtmlNode, sel: Selector) returns (r: Option<HtmlNode>)
    ensures r == FirstMatch(node, sel)
    decreases node
  {
    if Matches(node, sel) {
      FirstMatchRoot(node, sel);
      return Some(node);
    }
    if node.child.Absent? {
      FirstMatchLeaf(node, sel);
      return None;
    }
    var cs := node.child.nodes;
    MatchesNone(node, sel);
    for i := 0 to |cs|
      invariant MatchesUpTo(node, sel, i) == []
    {
      var found := RecursiveQuery(cs[i], sel);
      MatchesStep(node, sel, i);
      if found.Some? {
        MatchesKeepFirst(node, sel, i + 1, |cs|);
        MatchesAll(node, sel);
        return found;
      }
    }
    MatchesAll(node, sel);
    r := None;
  }

  /** `recursiveQueryAll(node, selector)`: the node if it matches, then the
      matches of each child subtree in order. */
  method RecursiveQueryAll(node: HtmlNode, sel: Selector) returns (all: seq<HtmlNode>)
    ensures all == AllMatches(node, sel)
    decreases node
  {
    all := [];
    if Matches(node, sel) {
      all := all + [node];
    }
    if node.child.Absent? {
      assert PreOrder(node) == [node];
      assert [node][..0] == [];
      return;
    }
    var cs := node.child.nodes;
    MatchesNone(node, sel);
    for i := 0 to |cs|
      invariant all == MatchesUpTo(node, sel, i)
    {
      var found := RecursiveQueryAll(cs[i], sel);
      MatchesStep(node, sel, i);
      if |found| > 0 {
        all := all + found;
      }
    }
    MatchesAll(node, sel);
  }

  /** The selector that decides a query: each selector of the loops
      restarts from the root, so only the last one counts. */
  function LastSelector(query: string): Selector
  {
    var sels := ParseQuerySelector(query);
    sels[|sels| - 1]
  }

  /** The empty tag, which a blank query parses to, matches no node. */
  lemma EmptyTagMatchesNothing(root: HtmlNode)
    ensures AllMatches(root, Tag("")) == []
    ensures FirstMatch(root, Tag("")) == None
  {
    FilterNone(PreOrder(root), Tag(""));
  }

  /** The search the query loops run: every selector from the root, the
      result of the last one kept. */
  method SearchEach(root: HtmlNode, selectors: seq<Selector>) returns (r: Option<HtmlNode>)
    requires |selectors| >= 1
    ensures r == FirstMatch(root, selectors[|selectors| - 1])
  {
    var current := None;
    var i := 0;
    while i < |selectors|
      invariant 0 <= i <= |selectors|
      invariant i > 0 ==> current == FirstMatch(root, selectors[i - 1])
    {
      current := RecursiveQuery(root, selectors[i]);
      i := i + 1;
    }
    r := current;
  }

  /** `querySelector(node)(query)`: every selector is searched from the
      root and replaces the previous result, so the last one decides. */
  method QuerySelector(root: Option<HtmlNode>, query: string) returns (r: Option<HtmlNode>)
    ensures root.None? ==> r.None?
    ensures root.Some? ==> r == FirstMatch(root.value, LastSelector(query))
  {
    if root.None? {
      return None;
    }
    var selectors := ParseQuerySelector(query);
    r := SearchEach(root.value, selectors);
    assert selectors[|selectors| - 1] == LastSelector(query);
  }

  /** The loop of `querySelectorAll`: every selector from the root, the
      matches of the last one kept. */
  method SearchAllEach(root: HtmlNode, selectors: seq<Selector>) returns (r: seq<HtmlNode>)
    requires |selectors| >= 1
    ensures r == AllMatches(root, selectors[|selectors| - 1])
  {
    var current: seq<HtmlNode> := [];
    var i := 0;
    while i < |selectors|
      invariant 0 <= i <= |selectors|
      invariant i > 0 ==> current == AllMatches(root, selectors[i - 1])
    {
      current := RecursiveQueryAll(root, selectors[i]);
      i := i + 1;
    }
    r := current;
  }

  /** `querySelectorAll(node)(query)`: every match of the last selector. */
  method QuerySelectorAll(root: Option<HtmlNode>, query: string) returns (r: Option<seq<HtmlNode>>)
    ensures root.None? ==> r.None?
    ensures root.Some? ==> r == Some(AllMatches(root.value, LastSelector(query)))
  {
    if root.None? {
      return None;
    }
    var selectors := ParseQuerySelector(query);
    var all := SearchAllEach(root.value, selectors);
    assert selectors[|selectors| - 1] == LastSelector(query);
    r := Some(all);
  }
}
