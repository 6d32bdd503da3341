/** Splitting the head step off a path query. */
module Query {
  import opened Text
  import opened Wrappers

  /** One step of a query: `.type[filter]`, or `..type[filter]` at any depth. */
  datatype Step = Step(anyDepth: bool, linkType: string, filter: string)

  predicate IsTypeChar(c: char) {
    c == '*' || 'a' <= c <= 'z' || 'A' <= c <= 'Z' || '0' <= c <= '9' || c == '_' || c == '-'
  }

  predicate NoBrackets(s: string) {
    forall k :: 0 <= k < |s| ==> s[k] != '[' && s[k] != ']'
  }

  /** A link type over the allowed characters and a filter without brackets; an empty filter stands for none. */
  predicate WellFormed(s: Step) {
    && s.linkType != "" && (forall k :: 0 <= k < |s.linkType| ==> IsTypeChar(s.linkType[k]))
    && NoBrackets(s.filter)
  }

  function PrintFilter(f: string): string {
    if f == "" then "" else "[" + f + "]"
  }

  /** The step read as a plain one. */
  function PrintPlain(s: Step): string {
    "." + s.linkType + PrintFilter(s.filter)
  }

  function Print(steps: seq<Step>): string {
    if steps == [] then ""
    else (if steps[0].anyDepth then "." else "") + PrintPlain(steps[0]) + Print(steps[1..])
  }

  // ---------------------------------------------------------------- string functions

  /** strings.Replace(s, sub, "", 1) */
  function RemoveFirst(s: string, sub: string): string {
    var r := Find(s, sub, 0);
    if r.None? then s else s[..r.value] + s[r.value + |sub|..]
  }

  /** The position of the first `c` at or after `from`, or the length. */
  function IndexOf(s: string, c: char, from: nat): (i: nat)
    requires from <= |s|
    ensures from <= i <= |s|
    ensures forall j :: from <= j < i ==> s[j] != c
    ensures i < |s| ==> s[i] == c
    decreases |s| - from
  {
    if from == |s| || s[from] == c then from else IndexOf(s, c, from + 1)
  }

  /** The position of the last `c` in `s[from..end]`. */
  function LastIndexOf(s: string, c: char, from: nat, end: nat): (r: Option<nat>)
    requires from <= end <= |s|
    ensures r.Some? ==> from <= r.value < end && s[r.value] == c && forall j :: r.value < j < end ==> s[j] != c
    ensures r.None? ==> forall j :: from <= j < end ==> s[j] != c
    decreases end
  {
    if from == end then None
    else if s[end - 1] == c then Some(end - 1)
    else LastIndexOf(s, c, from, end - 1)
  }

  function TypeEnd(q: string, from: nat): (i: nat)
    requires from <= |q|
    ensures from <= i <= |q|
    ensures forall j :: from <= j < i ==> IsTypeChar(q[j])
    ensures i < |q| ==> !IsTypeChar(q[i])
    decreases |q| - from
  {
    if from == |q| || !IsTypeChar(q[from]) then from else TypeEnd(q, from + 1)
  }

  /** The bracketed filter at the start of `u`, up to the last `]` before the next `[`, and its inside. */
  function BracketGroups(u: string): (string, string) {
    if u == "" || u[0] != '[' then ("", "")
    else if |u| > 1 && u[1] == ']' then ("[]", "")
    else
      match LastIndexOf(u, ']', 1, IndexOf(u, '[', 1))
      case None => ("", "")
      case Some(j) => (u[..j + 1], u[1..j])
  }

  /** The groups 1 and 2 of the part-extracting regular expression on a query that starts with a dot and whose
      filters hold no brackets. */
  function FilterGroups(q: string): (string, string)
    requires q != ""
  {
    BracketGroups(q[TypeEnd(q, 1)..])
  }

  // ---------------------------------------------------------------- the split

  datatype AnyDepthStop = AnyDepthStop(linkType: string, filter: string, tail: string)

  datatype Parts = Malformed | Parts(linkType: string, filter: string, tail: string, stop: Option<AnyDepthStop>)

  /** Head link type, head filter and tail of a query that starts with a single-dot step. */
  function SplitPlain(q: string): (string, string, string)
    requires q != ""
  {
    var (group, filter) := FilterGroups(q);
    var bare := RemoveFirst(q, group);
    var linkType := if bare == "" then "" else bare[1..][..IndexOf(bare[1..], '.', 0)];
    (linkType, filter, RemoveFirst(bare, "." + linkType))
  }

  function GetQueryHeadAndTailsParts(query: string): Parts
    requires query != ""
  {
    if query[0] != '.' then Malformed
    else if |query| == 1 then Parts("", "", "", None)
    else if query[1] == '.' then
      var q := query[1..];
      var (linkType, filter, tail) := SplitPlain(q);
      Parts("*", "", "." + q, Some(AnyDepthStop(linkType, filter, tail)))
    else
      var (linkType, filter, tail) := SplitPlain(query);
      Parts(linkType, filter, tail, None)
  }

  // ---------------------------------------------------------------- round trip

  /** Brackets are opened before they are closed. */
  ghost predicate OpensFirst(t: string) {
    forall j :: 0 <= j < IndexOf(t, '[', 0) ==> t[j] != ']'
  }

  /** What can follow a head step. */
  ghost predicate Tail(t: string) {
    (t != "" ==> t[0] == '.') && OpensFirst(t)
  }

  lemma IndexOfIs(s: string, c: char, from: nat, i: nat)
    requires from <= i <= |s| && (forall j :: from <= j < i ==> s[j] != c) && (i < |s| ==> s[i] == c)
    ensures IndexOf(s, c, from) == i
  {
  }

  lemma IndexOfSkips(a: string, t: string, c: char, from: nat)
    requires from <= |a| && forall j :: from <= j < |a| ==> a[j] != c
    ensures IndexOf(a + t, c, from) == |a| + IndexOf(t, c, 0)
  {
    IndexOfIs(a + t, c, from, |a| + IndexOf(t, c, 0));
  }

  lemma TypeEndSkips(a: string, u: string)
    requires a != "" && (forall j :: 1 <= j < |a| ==> IsTypeChar(a[j])) && (u != "" ==> !IsTypeChar(u[0]))
    ensures TypeEnd(a + u, 1) == |a|
  {
    assert forall j :: 1 <= j < |a| ==> (a + u)[j] == a[j];
    assert u != "" ==> (a + u)[|a|] == u[0];
  }

  lemma PrefixOpensFirst(a: string, t: string)
    requires NoBrackets(a) && OpensFirst(t)
    ensures OpensFirst(a + t)
  {
    IndexOfSkips(a, t, '[', 0);
  }

  lemma FilterOpensFirst(f: string, tail: string)
    requires OpensFirst(tail)
    ensures OpensFirst(PrintFilter(f) + tail)
  {
    if f == "" {
      assert PrintFilter(f) + tail == tail;
    } else {
      assert (PrintFilter(f) + tail)[0] == '[';
    }
  }

  function Dotted(s: Step): string {
    "." + s.linkType
  }

  lemma DottedIsPlain(s: Step)
    requires WellFormed(s)
    ensures NoBrackets(Dotted(s)) && forall j :: 1 <= j < |Dotted(s)| ==> IsTypeChar(Dotted(s)[j]) && Dotted(s)[j] != '.'
  {
  }

  /** The text of a plain step followed by a printed tail. */
  function Headed(s: Step, tail: string): string {
    Dotted(s) + (PrintFilter(s.filter) + tail)
  }

  lemma HeadedIsTail(s: Step, tail: string)
    requires WellFormed(s) && Tail(tail)
    ensures Tail(Headed(s, tail)) && Tail("." + Headed(s, tail))
  {
    DottedIsPlain(s);
    FilterOpensFirst(s.filter, tail);
    PrefixOpensFirst(Dotted(s), PrintFilter(s.filter) + tail);
    PrefixOpensFirst(".", Headed(s, tail));
  }

  lemma PrintedIsHeaded(steps: seq<Step>)
    requires steps != []
    ensures Print(steps) == (if steps[0].anyDepth then "." else "") + Headed(steps[0], Print(steps[1..]))
  {
    var s, rest := steps[0], Print(steps[1..]);
    assert PrintPlain(s) + rest == Headed(s, rest);
  }

  lemma {:induction false} PrintedIsTail(steps: seq<Step>)
    requires forall k :: 0 <= k < |steps| ==> WellFormed(steps[k])
    ensures Tail(Print(steps))
  {
    if steps != [] {
      PrintedIsTail(steps[1..]);
      PrintedIsHeaded(steps);
      var q := Headed(steps[0], Print(steps[1..]));
      HeadedIsTail(steps[0], Print(steps[1..]));
      assert "" + q == q;
    }
  }

  lemma BracketGroupsOf(f: string, tail: string)
    requires NoBrackets(f) && Tail(tail)
    ensures BracketGroups(PrintFilter(f) + tail) == (PrintFilter(f), f)
  {
    var u := PrintFilter(f) + tail;
    if f == "" {
      assert u == tail;
    } else {
      var g := "[" + f + "]";
      assert forall j :: 1 <= j <= |f| ==> g[j] == f[j - 1];
      IndexOfSkips(g, tail, '[', 1);
      assert u[|f| + 1] == ']';
      assert LastIndexOf(u, ']', 1, IndexOf(u, '[', 1)) == Some(|f| + 1);
      assert u[..|f| + 2] == g;
      assert u[1..|f| + 1] == f;
    }
  }

  lemma HeadGroups(s: Step, tail: string)
    requires WellFormed(s) && Tail(tail)
    ensures FilterGroups(Headed(s, tail)) == (PrintFilter(s.filter), s.filter)
  {
    var u := PrintFilter(s.filter) + tail;
    DottedIsPlain(s);
    assert u != "" ==> u[0] == '[' || u[0] == '.';
    TypeEndSkips(Dotted(s), u);
    assert Headed(s, tail)[|Dotted(s)|..] == u;
    BracketGroupsOf(s.filter, tail);
  }

  lemma RemoveFirstAt(q: string, sub: string, i: nat)
    requires OccursAt(q, sub, i) && forall j: nat :: j < i ==> !OccursAt(q, sub, j)
    ensures RemoveFirst(q, sub) == q[..i] + q[i + |sub|..]
  {
  }

  /** A string that starts with a bracket is not found before the first bracket. */
  lemma RemoveBracketed(a: string, g: string, tail: string)
    requires NoBrackets(a) && g != "" && g[0] == '['
    ensures RemoveFirst(a + (g + tail), g) == a + tail
  {
    var q := a + (g + tail);
    assert q[|a|..|a| + |g|] == g;
    forall j: nat | j < |a|
      ensures !OccursAt(q, g, j)
    {
      assert j + |g| <= |q| ==> q[j..j + |g|][0] == a[j];
    }
    RemoveFirstAt(q, g, |a|);
    assert q[..|a|] == a && q[|a| + |g|..] == tail;
  }

  lemma RemovePrefix(a: string, tail: string)
    ensures RemoveFirst(a + tail, a) == tail
  {
    assert OccursAt(a + tail, a, 0);
    RemoveFirstAt(a + tail, a, 0);
  }

  lemma FilterRemoved(s: Step, tail: string)
    requires WellFormed(s)
    ensures RemoveFirst(Headed(s, tail), PrintFilter(s.filter)) == Dotted(s) + tail
  {
    DottedIsPlain(s);
    if s.filter == "" {
      RemovePrefix("", Headed(s, tail));
      assert "" + Headed(s, tail) == Headed(s, tail) == Dotted(s) + tail;
    } else {
      RemoveBracketed(Dotted(s), PrintFilter(s.filter), tail);
    }
  }

  lemma HeadSplits(s: Step, tail: string)
    requires WellFormed(s) && Tail(tail)
    ensures SplitPlain(Headed(s, tail)) == (s.linkType, s.filter, tail)
  {
    HeadGroups(s, tail);
    FilterRemoved(s, tail);
    FirstTypeOf(s, tail);
    RemovePrefix(Dotted(s), tail);
  }

  lemma FirstTypeOf(s: Step, tail: string)
    requires WellFormed(s) && (tail != "" ==> tail[0] == '.')
    ensures var bare := Dotted(s) + tail; bare[1..][..IndexOf(bare[1..], '.', 0)] == s.linkType
  {
    var bare := Dotted(s) + tail;
    assert bare[1..] == s.linkType + tail;
    IndexOfSkips(s.linkType, tail, '.', 0);
  }

  /** Splitting a printed query gives back the head step and the printed rest; only the any-depth continuation is
      not shorter: it is the query itself. */
  lemma SplitPrinted(steps: seq<Step>)
    requires steps != [] && forall k :: 0 <= k < |steps| ==> WellFormed(steps[k])
    ensures Print(steps) != "" && |Print(steps[1..])| < |Print(steps)|
    ensures var s, query, rest := steps[0], Print(steps), Print(steps[1..]);
            GetQueryHeadAndTailsParts(query)
            == if s.anyDepth then Parts("*", "", query, Some(AnyDepthStop(s.linkType, s.filter, rest)))
               else Parts(s.linkType, s.filter, rest, None)
  {
    var s, rest := steps[0], Print(steps[1..]);
    PrintedIsTail(steps[1..]);
    HeadSplits(s, rest);
    PrintedIsHeaded(steps);
    var q := Headed(s, rest);
    assert q[0] == '.' && q[1] == s.linkType[0] && IsTypeChar(q[1]);
    if s.anyDepth {
      assert Print(steps)[1..] == q;
    } else {
      assert Print(steps) == q;
    }
  }
}
