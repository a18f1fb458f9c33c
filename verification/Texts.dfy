/** Texts joined by colons: where one part ends and the next begins. */
module Texts {

  /** What stands before the last colon, and what follows it. */
  lemma SplitAtLast(a: string, x: string, b: string, y: string)
    requires ':' !in x && ':' !in y
    ensures a + ":" + x == b + ":" + y <==> a == b && x == y
  {
    var s, t := a + ":" + x, b + ":" + y;
    assert s[..|a|] == a && s[|a|] == ':' && s[|a| + 1..] == x;
    assert t[..|b|] == b && t[|b|] == ':' && t[|b| + 1..] == y;
    assert |a| < |b| < |s| ==> s[|b|] in x;
    assert |b| < |a| < |t| ==> t[|a|] in y;
  }

  /** What stands before the first separator, and what follows it. */
  lemma SplitAtFirst(sep: string, x: string, a: string, y: string, b: string)
    requires |sep| == 1 && sep[0] !in x && sep[0] !in y
    ensures x + sep + a == y + sep + b <==> x == y && a == b
  {
    var s, t := x + sep + a, y + sep + b;
    assert s[..|x|] == x && s[|x|] == sep[0] && s[|x| + 1..] == a;
    assert t[..|y|] == y && t[|y|] == sep[0] && t[|y| + 1..] == b;
    assert |x| < |y| ==> t[|x|] in y;
    assert |y| < |x| ==> s[|y|] in x;
  }

  lemma SamePrefix(prefix: string, a: string, b: string)
    ensures prefix + a == prefix + b <==> a == b
  {
    assert (prefix + a)[|prefix|..] == a && (prefix + b)[|prefix|..] == b;
  }

  /** A head and three parts, the last two without colons. */
  lemma FourParts(head: string, layer: string, a: string, m: string, s: string, other: string, b: string, n: string, t: string)
    requires ':' !in layer && ':' !in other && ':' !in m && ':' !in n && ':' !in s && ':' !in t
    ensures
      head + layer + ":" + a + ":" + m + ":" + s == head + other + ":" + b + ":" + n + ":" + t <==>
        layer == other && a == b && m == n && s == t
  {
    var x, y := head + layer + ":" + a, head + other + ":" + b;
    SplitAtLast(x + ":" + m, s, y + ":" + n, t);
    SplitAtLast(x, m, y, n);
    assert x == head + (layer + ":" + a) && y == head + (other + ":" + b);
    SamePrefix(head, layer + ":" + a, other + ":" + b);
    SplitAtFirst(":", layer, a, other, b);
  }
}
