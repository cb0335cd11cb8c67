/**
 The channel ids a gateway issues: its service id, the account and a sequence number, joined by
 underscores (services/gateway/serv/handler.go).
*/
module ChannelIds {
  import opened Endian

  const UNDERSCORE: byte := 95

  /** %d of a natural number. */
  function Decimal(n: nat): (d: bytes)
    ensures d != []
    ensures forall x | x in d :: 48 <= x < 58
  {
    if n < 10 then [(48 + n) as byte] else Decimal(n / 10) + [(48 + n % 10) as byte]
  }

  function Number(d: bytes): int {
    if d == [] then 0 else 10 * Number(d[..|d| - 1]) + d[|d| - 1] as int - 48
  }

  lemma {:induction false} NumberOfDecimal(n: nat)
    ensures Number(Decimal(n)) == n
  {
    if n < 10 {
      assert Decimal(n)[..0] == [];
    } else {
      NumberOfDecimal(n / 10);
      assert Decimal(n)[..|Decimal(n)| - 1] == Decimal(n / 10);
    }
  }

  function ChannelId(service: bytes, account: bytes, n: nat): bytes {
    service + [UNDERSCORE] + account + [UNDERSCORE] + Decimal(n)
  }

  /** Two strings that agree around their last underscores agree before and after them. */
  lemma LastUnderscore(x: bytes, d: bytes, y: bytes, e: bytes)
    requires UNDERSCORE !in d && UNDERSCORE !in e
    requires x + [UNDERSCORE] + d == y + [UNDERSCORE] + e
    ensures x == y && d == e
  {
    var s, t := x + [UNDERSCORE] + d, y + [UNDERSCORE] + e;
    NoneAfter(x, d, |y|);
    NoneAfter(y, e, |x|);
    assert s[|x|] == UNDERSCORE && t[|y|] == UNDERSCORE;
    assert |x| == |y|;
    assert x == s[..|x|] && d == s[|x| + 1..];
    assert y == t[..|x|] && e == t[|x| + 1..];
  }

  lemma NoneAfter(x: bytes, d: bytes, i: nat)
    requires UNDERSCORE !in d
    ensures |x| < i <= |x| + |d| ==> (x + [UNDERSCORE] + d)[i] != UNDERSCORE
  {
    if |x| < i <= |x| + |d| {
      assert (x + [UNDERSCORE] + d)[i] == d[i - |x| - 1];
    }
  }

  lemma SameNumberAndPrefix(s: bytes, a: bytes, m: nat, t: bytes, b: bytes, n: nat)
    requires ChannelId(s, a, m) == ChannelId(t, b, n)
    ensures m == n && s + [UNDERSCORE] + a == t + [UNDERSCORE] + b
  {
    LastUnderscore(s + [UNDERSCORE] + a, Decimal(m), t + [UNDERSCORE] + b, Decimal(n));
    NumberOfDecimal(m);
    NumberOfDecimal(n);
  }

  /** One gateway never issues the same id for two accounts or two numbers, whatever the accounts contain. */
  lemma InjectiveWithinGateway(service: bytes, a: bytes, m: nat, b: bytes, n: nat)
    ensures ChannelId(service, a, m) == ChannelId(service, b, n) <==> a == b && m == n
  {
    if ChannelId(service, a, m) == ChannelId(service, b, n) {
      SameNumberAndPrefix(service, a, m, service, b, n);
      var x, y := service + [UNDERSCORE] + a, service + [UNDERSCORE] + b;
      assert x[|service| + 1..] == a && y[|service| + 1..] == b;
    }
  }

  /** t is s, an underscore, and something more. */
  predicate Extends(s: bytes, t: bytes) {
    s + [UNDERSCORE] <= t
  }

  /** Both gateways can issue some one id. */
  ghost predicate ShareAnId(s: bytes, t: bytes) {
    exists a, m, b, n :: ChannelId(s, a, m) == ChannelId(t, b, n)
  }

  lemma ExtensionSharesAnId(s: bytes, t: bytes, b: bytes, n: nat)
    requires Extends(s, t)
    ensures ChannelId(s, t[|s| + 1..] + [UNDERSCORE] + b, n) == ChannelId(t, b, n)
  {
    var x := t[|s| + 1..];
    assert t == s + [UNDERSCORE] + x;
    assert s + [UNDERSCORE] + (x + [UNDERSCORE] + b) == t + [UNDERSCORE] + b;
  }

  lemma SharedIdMeansExtension(s: bytes, a: bytes, m: nat, t: bytes, b: bytes, n: nat)
    requires ChannelId(s, a, m) == ChannelId(t, b, n)
    ensures s == t || Extends(s, t) || Extends(t, s)
  {
    SameNumberAndPrefix(s, a, m, t, b, n);
    var x, y := s + [UNDERSCORE] + a, t + [UNDERSCORE] + b;
    if |s| < |t| {
      assert x[..|s| + 1] == s + [UNDERSCORE] && y[..|s| + 1] == t[..|s| + 1];
    } else if |t| < |s| {
      assert y[..|t| + 1] == t + [UNDERSCORE] && x[..|t| + 1] == s[..|t| + 1];
    } else {
      assert x[..|s|] == s && y[..|s|] == t;
    }
  }

  /** Two different gateways can issue the same id exactly when one's service id extends the other's. */
  lemma SharedAcrossGatewaysIff(s: bytes, t: bytes)
    requires s != t
    ensures ShareAnId(s, t) <==> Extends(s, t) || Extends(t, s)
  {
    if ShareAnId(s, t) {
      var a, m, b, n :| ChannelId(s, a, m) == ChannelId(t, b, n);
      SharedIdMeansExtension(s, a, m, t, b, n);
    }
    if Extends(s, t) {
      ExtensionSharesAnId(s, t, [], 0);
    } else if Extends(t, s) {
      ExtensionSharesAnId(t, s, [], 0);
      assert ChannelId(s, [], 0) == ChannelId(t, s[|t| + 1..] + [UNDERSCORE] + [], 0);
    }
  }
}
