/** Codes of values as numbers. They show that what is assumed of digests and of identifier orders can
    be met: some function into the numbers tells those values apart. */
module Codes {
  function Pair(x: nat, y: nat): (p: nat)
    ensures 0 < p
  {
    if x == 0 then 2 * y + 1 else 2 * Pair(x - 1, y)
  }

  lemma {:induction false} PairTellsApart(x: nat, y: nat, u: nat, v: nat)
    requires Pair(x, y) == Pair(u, v)
    ensures x == u && y == v
  {
    if x != 0 && u != 0 { PairTellsApart(x - 1, y, u - 1, v); }
  }

  function Signed(z: int): nat { if z >= 0 then 2 * z else -2 * z - 1 }

  function Text(s: string): nat {
    if |s| == 0 then 0 else Pair(Text(s[..|s| - 1]), s[|s| - 1] as int)
  }

  lemma {:induction false} TextTellsApart(s: string, t: string)
    requires Text(s) == Text(t)
    ensures s == t
  {
    if |s| != 0 && |t| != 0 {
      var m, n := |s| - 1, |t| - 1;
      PairTellsApart(Text(s[..m]), s[m] as int, Text(t[..n]), t[n] as int);
      TextTellsApart(s[..m], t[..n]);
      assert s == s[..m] + [s[m]] && t == t[..n] + [t[n]];
    }
  }

  function Texts(s: seq<string>): nat {
    if |s| == 0 then 0 else Pair(Texts(s[..|s| - 1]), Text(s[|s| - 1]))
  }

  lemma {:induction false} TextsTellApart(s: seq<string>, t: seq<string>)
    requires Texts(s) == Texts(t)
    ensures s == t
  {
    if |s| != 0 && |t| != 0 {
      var m, n := |s| - 1, |t| - 1;
      PairTellsApart(Texts(s[..m]), Text(s[m]), Texts(t[..n]), Text(t[n]));
      TextTellsApart(s[m], t[n]);
      TextsTellApart(s[..m], t[..n]);
      assert s == s[..m] + [s[m]] && t == t[..n] + [t[n]];
    }
  }
}
