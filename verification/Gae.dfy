/**
 Generalized advantage estimation over one response (`compute_gae_advantage_return` in `gvpo_core_algos.py`, up to
 the whitening), over real numbers. Observation tokens are masked out.
 */
module Gae {
  /** One token: its reward, the value estimate before it, and whether it counts (mask 1) or not (mask 0). */
  datatype Token = Token(reward: real, value: real, mask: real)

  ghost predicate IsMask(tokens: seq<Token>) {
    forall t :: 0 <= t < |tokens| ==> tokens[t].mask == 0.0 || tokens[t].mask == 1.0
  }

  datatype Carry = Carry(nextValue: real, last: real)

  /** One pass of the loop body. */
  function Back(x: Token, c: Carry, gamma: real, lam: real): Carry {
    var delta := x.reward + gamma * c.nextValue - x.value;
    var last := delta + gamma * lam * c.last;
    Carry(x.value * x.mask + (1.0 - x.mask) * c.nextValue, last * x.mask + (1.0 - x.mask) * c.last)
  }

  /** What the loop carries after the tokens, taken from the last to the first. */
  function Scan(tokens: seq<Token>, gamma: real, lam: real): Carry {
    if tokens == [] then Carry(0.0, 0.0) else Back(tokens[0], Scan(tokens[1..], gamma, lam), gamma, lam)
  }

  method ComputeGae(tokens: seq<Token>, gamma: real, lam: real) returns (advantages: seq<real>, returns': seq<real>)
    ensures |advantages| == |returns'| == |tokens|
    ensures forall t :: 0 <= t < |tokens| ==> advantages[t] == Scan(tokens[t..], gamma, lam).last
    ensures forall t :: 0 <= t < |tokens| ==> returns'[t] == advantages[t] + tokens[t].value
  {
    var nextValue, last, reversed := 0.0, 0.0, [];
    var n := |tokens|;
    assert Scan(tokens[n..], gamma, lam) == Carry(0.0, 0.0);
    hide Scan;
    for t := n downto 0
      invariant Scan(tokens[t..], gamma, lam) == Carry(nextValue, last)
      invariant |reversed| == n - t
      invariant forall u :: t <= u < n ==> reversed[n - 1 - u] == Scan(tokens[u..], gamma, lam).last
    {
      ScanFrom(tokens, t, gamma, lam);
      nextValue, last := BackOneToken(tokens[t], nextValue, last, gamma, lam);
      reversed := reversed + [last];
    }
    advantages := seq(n, t requires 0 <= t < n => reversed[n - 1 - t]);
    returns' := seq(n, t requires 0 <= t < n => advantages[t] + tokens[t].value);
  }

  /** The loop body. */
  method BackOneToken(x: Token, nextValue: real, last: real, gamma: real, lam: real)
    returns (nextValue': real, last': real)
    ensures Carry(nextValue', last') == Back(x, Carry(nextValue, last), gamma, lam)
  {
    var delta := x.reward + gamma * nextValue - x.value;
    var unmasked := delta + gamma * lam * last;
    nextValue' := x.value * x.mask + (1.0 - x.mask) * nextValue;
    last' := unmasked * x.mask + (1.0 - x.mask) * last;
  }

  lemma ScanFrom(tokens: seq<Token>, t: nat, gamma: real, lam: real)
    requires t < |tokens|
    ensures Scan(tokens[t..], gamma, lam) == Back(tokens[t], Scan(tokens[t + 1..], gamma, lam), gamma, lam)
  {
    assert tokens[t..][1..] == tokens[t + 1..];
    hide Back;
  }

  // ---------------------------------------------------------------- the definition

  function Pow(g: real, n: nat): real {
    if n == 0 then 1.0 else g * Pow(g, n - 1)
  }

  /** The sum of `xs[l] * g^l`. */
  function Discounted(xs: seq<real>, g: real): real {
    if xs == [] then 0.0
    else
      var n := |xs| - 1;
      Discounted(xs[..n], g) + xs[n] * Pow(g, n)
  }

  /** The tokens that count. */
  function Kept(tokens: seq<Token>): seq<Token> {
    if tokens == [] then []
    else (if tokens[0].mask == 1.0 then [tokens[0]] else []) + Kept(tokens[1..])
  }

  function Rewards(tokens: seq<Token>): (r: seq<real>)
    ensures |r| == |tokens|
  {
    seq(|tokens|, t requires 0 <= t < |tokens| => tokens[t].reward)
  }

  /** The temporal differences: reward plus discounted next value minus value; nothing follows the last token. */
  function Deltas(tokens: seq<Token>, gamma: real): (d: seq<real>)
    ensures |d| == |tokens|
  {
    seq(|tokens|, t requires 0 <= t < |tokens| =>
      tokens[t].reward + gamma * (if t + 1 < |tokens| then tokens[t + 1].value else 0.0) - tokens[t].value)
  }

  /** The advantage of the first token of a response without masked tokens: its differences discounted by gamma * lambda. */
  function Advantage(tokens: seq<Token>, gamma: real, lam: real): real {
    Discounted(Deltas(tokens, gamma), gamma * lam)
  }

  // ---------------------------------------------------------------- what the loop computes

  lemma {:induction false} DiscountedFirst(xs: seq<real>, g: real)
    requires xs != []
    ensures Discounted(xs, g) == xs[0] + g * Discounted(xs[1..], g)
  {
    hide *;
    var n := |xs| - 1;
    DiscountedLast(xs, g);
    PowNext(g, n);
    if n == 0 {
      DiscountedNothing(xs[..0], g);
      DiscountedNothing(xs[1..], g);
      OneTerm(xs[0], g);
    } else {
      var rest := xs[1..];
      DiscountedFirst(xs[..n], g);
      DiscountedLast(rest, g);
      assert xs[..n][1..] == rest[..n - 1] && rest[n - 1] == xs[n] && xs[..n][0] == xs[0];
      MoreTerms(xs[0], Discounted(rest[..n - 1], g), xs[n], Pow(g, n - 1), g);
    }
  }

  lemma DiscountedLast(xs: seq<real>, g: real)
    requires xs != []
    ensures var n := |xs| - 1;
            Discounted(xs, g) == Discounted(xs[..n], g) + xs[n] * Pow(g, n)
  {
    hide Pow;
  }

  lemma DiscountedNothing(xs: seq<real>, g: real)
    requires xs == []
    ensures Discounted(xs, g) == 0.0
  {
  }

  lemma PowNext(g: real, n: nat)
    ensures Pow(g, n) == if n == 0 then 1.0 else g * Pow(g, n - 1)
  {
  }

  lemma OneTerm(x: real, g: real)
    ensures 0.0 + x * 1.0 == x + g * 0.0
  {
  }

  lemma MoreTerms(first: real, rest: real, last: real, p: real, g: real)
    ensures first + g * rest + last * (g * p) == first + g * (rest + last * p)
  {
    assert g * (last * p) == last * (g * p);
  }

  lemma DeltasFrom(tokens: seq<Token>, gamma: real)
    requires tokens != []
    ensures Deltas(tokens, gamma)[1..] == Deltas(tokens[1..], gamma)
  {
    var all, rest := Deltas(tokens, gamma)[1..], Deltas(tokens[1..], gamma);
    forall l | 0 <= l < |tokens| - 1
      ensures all[l] == rest[l]
    {
      assert tokens[1..][l] == tokens[l + 1];
      if l + 2 < |tokens| {
        assert tokens[1..][l + 1] == tokens[l + 2];
      }
    }
  }

  lemma FirstDelta(tokens: seq<Token>, gamma: real)
    requires tokens != []
    ensures Deltas(tokens, gamma) != []
    ensures Deltas(tokens, gamma)[0]
            == tokens[0].reward + gamma * (if 1 < |tokens| then tokens[1].value else 0.0) - tokens[0].value
  {
  }

  lemma AdvantageIs(tokens: seq<Token>, gamma: real, lam: real)
    ensures Advantage(tokens, gamma, lam) == Discounted(Deltas(tokens, gamma), gamma * lam)
  {
    hide Discounted, Deltas;
  }

  /** The plain recurrence. */
  lemma AdvantageFirst(tokens: seq<Token>, gamma: real, lam: real)
    requires tokens != []
    ensures Advantage(tokens, gamma, lam)
            == tokens[0].reward + gamma * (if 1 < |tokens| then tokens[1].value else 0.0) - tokens[0].value
               + gamma * lam * Advantage(tokens[1..], gamma, lam)
  {
    hide *;
    DeltasFrom(tokens, gamma);
    FirstDelta(tokens, gamma);
    DiscountedFirst(Deltas(tokens, gamma), gamma * lam);
    AdvantageIs(tokens, gamma, lam);
    AdvantageIs(tokens[1..], gamma, lam);
  }

  /** The loop carries the value and the advantage of the next token that counts. */
  lemma {:induction false} ScanIsGaeOfKept(tokens: seq<Token>, gamma: real, lam: real)
    requires IsMask(tokens)
    ensures var kept := Kept(tokens);
            Scan(tokens, gamma, lam)
            == Carry(if kept == [] then 0.0 else kept[0].value, Advantage(kept, gamma, lam))
  {
    hide *;
    NoTokens(gamma, lam);
    if tokens != [] {
      var x, rest := tokens[0], tokens[1..];
      MaskFirst(tokens);
      ScanIsGaeOfKept(rest, gamma, lam);
      KeptFirst(tokens);
      assert tokens == [x] + rest;
      if x.mask == 1.0 {
        AdvantageFirst([x] + Kept(rest), gamma, lam);
        assert ([x] + Kept(rest))[1..] == Kept(rest);
        BackKept(x, Kept(rest), Scan(rest, gamma, lam), gamma, lam);
      } else {
        BackMasked(x, Scan(rest, gamma, lam), gamma, lam);
      }
      ScanFirst(tokens, gamma, lam);
    }
  }

  lemma NoTokens(gamma: real, lam: real)
    ensures Kept([]) == [] && Scan([], gamma, lam) == Carry(0.0, Advantage([], gamma, lam))
  {
    assert Deltas([], gamma) == [];
  }

  lemma MaskFirst(tokens: seq<Token>)
    requires IsMask(tokens) && tokens != []
    ensures IsMask(tokens[1..]) && (tokens[0].mask == 0.0 || tokens[0].mask == 1.0)
  {
  }

  lemma KeptFirst(tokens: seq<Token>)
    requires tokens != []
    ensures Kept(tokens) == if tokens[0].mask == 1.0 then [tokens[0]] + Kept(tokens[1..]) else Kept(tokens[1..])
  {
    assert [] + Kept(tokens[1..]) == Kept(tokens[1..]);
  }

  lemma ScanFirst(tokens: seq<Token>, gamma: real, lam: real)
    requires tokens != []
    ensures Scan(tokens, gamma, lam) == Back(tokens[0], Scan(tokens[1..], gamma, lam), gamma, lam)
  {
    hide Back;
  }

  lemma BackKept(x: Token, kept: seq<Token>, c: Carry, gamma: real, lam: real)
    requires x.mask == 1.0 && c == Carry(if kept == [] then 0.0 else kept[0].value, Advantage(kept, gamma, lam))
    requires Advantage([x] + kept, gamma, lam)
             == x.reward + gamma * c.nextValue - x.value + gamma * lam * Advantage(kept, gamma, lam)
    ensures Back(x, c, gamma, lam) == Carry(x.value, Advantage([x] + kept, gamma, lam))
  {
    hide Advantage;
  }

  lemma BackMasked(x: Token, c: Carry, gamma: real, lam: real)
    requires x.mask == 0.0
    ensures Back(x, c, gamma, lam) == c
  {
  }

  /** How many tokens before `t` count. */
  function KeptBefore(tokens: seq<Token>, t: nat): nat
    requires t <= |tokens|
  {
    if t == 0 then 0 else (if tokens[0].mask == 1.0 then 1 else 0) + KeptBefore(tokens[1..], t - 1)
  }

  lemma {:induction false} KeptFrom(tokens: seq<Token>, t: nat)
    requires t <= |tokens|
    ensures KeptBefore(tokens, t) <= |Kept(tokens)| && Kept(tokens)[KeptBefore(tokens, t)..] == Kept(tokens[t..])
  {
    if t == 0 {
      assert tokens[0..] == tokens;
    } else {
      KeptFrom(tokens[1..], t - 1);
      assert tokens[1..][t - 1..] == tokens[t..];
      var first := if tokens[0].mask == 1.0 then [tokens[0]] else [];
      assert Kept(tokens) == first + Kept(tokens[1..]);
    }
  }

  /**
   The advantage at `t` is that of plain GAE at the same token of the response without its masked tokens; at a masked
   token it is that of the next token that counts, or zero when none follows.
   */
  lemma MaskedTokensAreInvisible(tokens: seq<Token>, t: nat, gamma: real, lam: real)
    requires IsMask(tokens) && t < |tokens|
    ensures var kept, i := Kept(tokens), KeptBefore(tokens, t);
            && i <= |kept|
            && (tokens[t].mask == 1.0 ==> i < |kept| && kept[i] == tokens[t])
            && Scan(tokens[t..], gamma, lam).last == (if i < |kept| then Advantage(kept[i..], gamma, lam) else 0.0)
  {
    KeptFrom(tokens, t);
    assert tokens[t..][0] == tokens[t];
    ScanIsGaeOfKept(tokens[t..], gamma, lam);
    if Kept(tokens[t..]) == [] {
      assert Deltas([], gamma) == [];
    }
  }

  /** Whatever a masked token's reward and value are, no advantage depends on them. */
  lemma MaskedContentIsIgnored(a: seq<Token>, b: seq<Token>, t: nat, gamma: real, lam: real)
    requires IsMask(a) && IsMask(b) && t <= |a| && t <= |b| && Kept(a[t..]) == Kept(b[t..])
    ensures Scan(a[t..], gamma, lam) == Scan(b[t..], gamma, lam)
  {
    ScanIsGaeOfKept(a[t..], gamma, lam);
    ScanIsGaeOfKept(b[t..], gamma, lam);
  }

  /** With lambda 1 the differences telescope: advantage plus value is the discounted sum of the rewards still to come. */
  lemma {:induction false} Telescopes(tokens: seq<Token>, gamma: real)
    ensures Advantage(tokens, gamma, 1.0) + (if tokens == [] then 0.0 else tokens[0].value)
            == Discounted(Rewards(tokens), gamma)
  {
    if tokens == [] {
      assert Deltas(tokens, gamma) == [] && Rewards(tokens) == [];
    } else {
      var rest := tokens[1..];
      Telescopes(rest, gamma);
      AdvantageFirst(tokens, gamma, 1.0);
      DiscountedFirst(Rewards(tokens), gamma);
      assert Rewards(tokens)[1..] == Rewards(rest);
      var a, v := Advantage(rest, gamma, 1.0), if rest == [] then 0.0 else rest[0].value;
      assert gamma * (a + v) == gamma * a + gamma * v;
      assert gamma * 1.0 * a == gamma * a;
    }
  }

  /** So with lambda 1 the return at a token that counts is the discounted sum of the rewards that count from there on. */
  lemma ReturnsAreRewardsToGo(tokens: seq<Token>, t: nat, gamma: real)
    requires IsMask(tokens) && t < |tokens| && tokens[t].mask == 1.0
    ensures Scan(tokens[t..], gamma, 1.0).last + tokens[t].value == Discounted(Rewards(Kept(tokens[t..])), gamma)
  {
    assert tokens[t..][0] == tokens[t];
    ScanIsGaeOfKept(tokens[t..], gamma, 1.0);
    Telescopes(Kept(tokens[t..]), gamma);
  }
}
