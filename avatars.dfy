/**
 * The default profile picture of signup: a DiceBear URL whose seed is
 * `user` followed by the decimal form of the drawn number.
 */
module Avatars {
  import opened Wrappers

  predicate AllDigits(s: string) {
    forall i :: 0 <= i < |s| ==> '0' <= s[i] <= '9'
  }

  function DigitChar(d: nat): (c: char)
    requires d < 10
    ensures '0' <= c <= '9' && c as int - '0' as int == d
  {
    ('0' as int + d) as char
  }

  /** Decimal form of a number, as a JavaScript template literal renders it. */
  function NatToString(n: nat): (s: string)
    ensures |s| > 0 && AllDigits(s)
    decreases n
  {
    if n < 10 then [DigitChar(n)] else NatToString(n / 10) + [DigitChar(n % 10)]
  }

  function ParseNat(s: string): (n: nat)
    requires AllDigits(s)
  {
    if s == [] then 0 else ParseNat(s[..|s| - 1]) * 10 + (s[|s| - 1] as int - '0' as int)
  }

  lemma {:induction false} ParseNatToString(n: nat)
    ensures ParseNat(NatToString(n)) == n
    decreases n
  {
    var s := NatToString(n);
    if n >= 10 {
      ParseNatToString(n / 10);
      assert s[..|s| - 1] == NatToString(n / 10);
    } else {
      assert s[..|s| - 1] == [];
    }
  }

  const AvatarBase := "https://api.dicebear.com/7.x/personas/svg?seed=user"

  /** `https://api.dicebear.com/7.x/personas/svg?seed=user${seed}`. */
  function AvatarUrl(seed: nat): (url: string)
    ensures |url| > |AvatarBase| && url[..|AvatarBase|] == AvatarBase
    ensures AllDigits(url[|AvatarBase|..])
  {
    AvatarBase + NatToString(seed)
  }

  /** A profile picture signup can hand out: seeds 1 to 100. */
  ghost predicate IsDefaultAvatar(pic: string) {
    exists n :: 1 <= n <= 100 && pic == AvatarUrl(n)
  }

  /** Reads the seed back from an avatar URL. */
  function SeedOf(pic: string): (seed: Option<nat>) {
    if |pic| > |AvatarBase| && pic[..|AvatarBase|] == AvatarBase && AllDigits(pic[|AvatarBase|..])
    then Some(ParseNat(pic[|AvatarBase|..]))
    else None
  }

  /** The seed is recoverable from the URL, so distinct draws give distinct avatars. */
  lemma SeedOfAvatarUrl(n: nat)
    ensures SeedOf(AvatarUrl(n)) == Some(n)
  {
    var pic := AvatarUrl(n);
    assert pic[..|AvatarBase|] == AvatarBase;
    assert pic[|AvatarBase|..] == NatToString(n);
    ParseNatToString(n);
  }

  lemma AvatarUrlInjective(m: nat, n: nat)
    requires AvatarUrl(m) == AvatarUrl(n)
    ensures m == n
  {
    SeedOfAvatarUrl(m);
    SeedOfAvatarUrl(n);
  }
}
