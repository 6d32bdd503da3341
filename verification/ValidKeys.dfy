/** Which keys the cache takes: those of its pattern, and so every key that the graph and the query engine build. */
module ValidKeys {
  import opened Tokens
  import opened GraphStore
  import opened Query
  import opened Trie

  // ---------------------------------------------------------------- the alphabets

  const LOWER := "abcdefghijklmnopqrstuvwxyz"
  const UPPER := "ABCDEFGHIJKLMNOPQRSTUVWXYZ"
  const DIGITS := "0123456789"

  /** `s` runs without a gap from `first`. */
  ghost predicate Consecutive(s: string, first: char) {
    first as int + |s| < 128 && forall k: nat :: k < |s| ==> s[k] == (first as int + k) as char
  }

  lemma ConsecutiveRange(s: string, first: char, c: char)
    requires Consecutive(s, first)
    ensures c in s <==> first <= c < (first as int + |s|) as char
  {
    if first <= c < (first as int + |s|) as char {
      assert s[c as int - first as int] == c;
    }
  }

  /** The characters of a token are the ASCII letters and digits, '=', '_' and '-'. */
  lemma TokenCharsAre(c: char)
    ensures IsTokenChar(c) <==> c in LOWER || c in UPPER || c in DIGITS || c in "=_-"
  {
    ConsecutiveRange(LOWER, 'a', c);
    ConsecutiveRange(UPPER, 'A', c);
    ConsecutiveRange(DIGITS, '0', c);
  }

  /** Those of a link type in a query. */
  lemma TypeCharsAre(c: char)
    ensures IsTypeChar(c) <==> c in LOWER || c in UPPER || c in DIGITS || c in "*_-"
  {
    ConsecutiveRange(LOWER, 'a', c);
    ConsecutiveRange(UPPER, 'A', c);
    ConsecutiveRange(DIGITS, '0', c);
  }

  /** The steps the theorems on queries speak of: any link type, and any filter without brackets. */
  lemma StepsAre(s: Step)
    ensures WellFormed(s) <==> s.linkType != "" && (forall c <- s.linkType :: IsTypeChar(c)) && '[' !in s.filter && ']' !in s.filter
  {
    assert forall k :: 0 <= k < |s.linkType| ==> s.linkType[k] in s.linkType;
    assert forall k :: 0 <= k < |s.filter| ==> s.filter[k] in s.filter;
  }

  // ---------------------------------------------------------------- the pattern of keys

  ghost predicate TokensAndDots(s: string) {
    forall c <- s :: IsTokenChar(c) || c == '.'
  }

  ghost predicate Framed(key: string, first: char, inside: string, last: char) {
    key == [first] + inside + [last] && IsTokenChar(first) && IsTokenChar(last) && inside != "" && TokensAndDots(inside)
  }

  /** The regular expression of the key validation, alternative by alternative. */
  ghost predicate FitsPattern(key: string) {
    (exists first, inside, last :: Framed(key, first, inside, last)) || forall c <- key :: IsTokenChar(c)
  }

  lemma FramedIsValid(key: string, first: char, inside: string, last: char)
    requires Framed(key, first, inside, last)
    ensures ValidKey(key)
  {
    forall c <- key
      ensures IsTokenChar(c) || c == '.'
    {
      assert c == first || c in inside || c == last;
    }
  }

  lemma ValidKeyIff(key: string)
    ensures ValidKey(key) <==> FitsPattern(key)
    ensures ValidKey(key) <==> key == "" || (IsTokenChar(key[0]) && IsTokenChar(key[|key| - 1]) && TokensAndDots(key))
  {
    if key != "" {
      assert key[0] in key && key[|key| - 1] in key;
    }
    if ValidKey(key) && |key| > 2 {
      assert key == [key[0]] + key[1..|key| - 1] + [key[|key| - 1]];
      assert Framed(key, key[0], key[1..|key| - 1], key[|key| - 1]);
    } else if ValidKey(key) {
      assert forall c <- key :: c == key[0] || c == key[|key| - 1];
    }
    if first, inside, last :| Framed(key, first, inside, last) {
      FramedIsValid(key, first, inside, last);
    }
  }

  // ---------------------------------------------------------------- keys that fit

  /** Tokens with dots between them. */
  lemma {:induction false} JoinedTokensFit(ts: seq<Token>)
    requires ts != []
    ensures ValidKey(Join(ts)) && Join(ts) != ""
  {
    assert ts[0][0] in ts[0] && ts[0][|ts[0]| - 1] in ts[0];
    if |ts| > 1 {
      JoinedTokensFit(ts[1..]);
      assert Join(ts) == ts[0] + "." + Join(ts[1..]);
    }
  }

  /** Every key of the graph is valid. */
  lemma GraphKeysFit(k: Key)
    ensures ValidKey(k.Rendered()) && k.Rendered() != ""
  {
    JoinedTokensFit(k.Tokens());
  }

  lemma FourTokensFit(a: Token, b: Token, c: Token, d: Token)
    ensures ValidKey(a + "." + b + "." + c + "." + d)
  {
    var ts: seq<Token> := [a, b, c, d];
    JoinedTokensFit(ts);
    assert ts[1..] == [b, c, d] && ts[1..][1..] == [c, d] && ts[1..][1..][1..] == [d];
    assert Join([c, d]) == c + "." + d;
    assert Join([b, c, d]) == b + "." + (c + "." + d);
    assert Join(ts) == a + "." + (b + "." + (c + "." + d));
    assert Join(ts) == a + "." + b + "." + c + "." + d;
  }

  /** So are the keys of pending entries and of the result of a call tree. */
  lemma QueryKeysFit(aggregation: Token, pair: Token, root: Token, process: Token)
    ensures ValidKey("jpgql_dcra" + "." + aggregation + "." + "pending" + "." + pair)
    ensures ValidKey("jpgql_ctra" + "." + root + "." + process + "." + "result")
  {
    FourTokensFit("jpgql_dcra", aggregation, "pending", pair);
    FourTokensFit("jpgql_ctra", root, process, "result");
  }

  /** The parts between the dots of a stored key, family by family. */
  lemma PartsOfKeys(k: Key)
    ensures Split(k.Rendered()) ==
      match k
      case Vertex(id) => [id]
      case OutBody(l) => [l.from, "out", "body", l.ltype, l.to]
      case OutIndex(l, index, value) => [l.from, "out", "index", l.ltype, l.to, index, value]
      case OutName(from, name) => [from, "out", "name", name]
      case NameGen(from) => [from, "out", "namegen"]
      case In(l) => [l.to, "in", l.from, l.ltype]
  {
    forall t: Token
      ensures '.' !in t
    {
      TokenHasNoDot(t);
    }
    SplitJoin(k.Tokens());
  }
}
