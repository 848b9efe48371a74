/** Object names, label values and the placeholder an autoscaler is parked on. */
module Names {
  import opened Text

  const MAX_LABEL_LENGTH := 63
  const SHORT_HASH_LENGTH := 10
  const DETACHED_PREFIX := "kube-greencosts-hibernated"

  /** A short hash gives ten lower-case hexadecimal characters. Nothing else is assumed of it. */
  ghost predicate IsShortHash(hash: string -> string) {
    forall s :: |hash(s)| == SHORT_HASH_LENGTH && IsHex(hash(s))
  }

  predicate IsHex(s: string) {
    forall i :: 0 <= i < |s| ==> IsDigit(s[i]) || 'a' <= s[i] <= 'f'
  }

  function DetachedTargetName(hash: string -> string, kind: string, name: string): string {
    DETACHED_PREFIX + "-" + hash(kind + "/" + name)
  }

  function ShortLabelValue(hash: string -> string, value: string): (r: string)
    requires IsShortHash(hash)
    ensures |r| <= MAX_LABEL_LENGTH
    ensures |value| <= MAX_LABEL_LENGTH ==> r == value
    ensures |value| > MAX_LABEL_LENGTH ==> |r| >= SHORT_HASH_LENGTH && r[|r| - SHORT_HASH_LENGTH..] == hash(value)
  {
    if |value| <= MAX_LABEL_LENGTH then value
    else
      var suffix := "-" + hash(value);
      var prefix := TrimRight(value[..MAX_LABEL_LENGTH - |suffix|], {'-', '_', '.'});
      if prefix == "" then hash(value) else prefix + suffix
  }

  /** Of s remains a prefix of length n; all the rest can be cut, its own last character cannot. */
  predicate CutsTo(s: string, cutset: set<char>, n: nat) {
    n <= |s| && (n > 0 ==> s[n - 1] !in cutset) && forall i :: n <= i < |s| ==> s[i] in cutset
  }

  /**
   * A long value gives its first 52 characters without what trails them, a dash and its hash, or else its hash alone.
   */
  lemma ShortLabelShape(hash: string -> string, value: string) returns (n: nat)
    requires IsShortHash(hash) && |value| > 63
    ensures CutsTo(value[..52], {'-', '_', '.'}, n)
    ensures ShortLabelValue(hash, value) == if n == 0 then hash(value) else value[..n] + ("-" + hash(value))
  {
    var prefix := TrimRight(value[..52], {'-', '_', '.'});
    n := |prefix|;
    assert prefix == value[..n];
  }

  function ShortObjectName(hash: string -> string, prefix: string, stableInput: string, suffix: string): string
    requires IsShortHash(hash)
  {
    if |prefix + suffix| <= MAX_LABEL_LENGTH then prefix + suffix else Shortened(hash(stableInput), prefix, suffix)
  }

  /** As much of the prefix as fits, the hash, and the whole suffix. */
  function Shortened(h: string, prefix: string, suffix: string): string
    requires |h| == SHORT_HASH_LENGTH && |prefix| + |suffix| > MAX_LABEL_LENGTH
  {
    var hashSuffix := "-" + h + suffix;
    var prefixLen := MAX_LABEL_LENGTH - |hashSuffix|;
    if prefixLen <= 0 then TrimLeft(hashSuffix, {'-'})
    else
      var shortPrefix := TrimRight(prefix[..prefixLen], {'-', '.'});
      if shortPrefix == "" then TrimLeft(hashSuffix, {'-'}) else shortPrefix + hashSuffix
  }

  /** The Job dispatched for Unix second t by the cron job of the given name. */
  function JobName(hash: string -> string, name: string, t: int): string
    requires IsShortHash(hash)
  {
    ShortObjectName(hash, name, name, "-" + Itoa(t))
  }

  /** What a name is shortened to: as much of the prefix as fits, without what trails it, a dash and the hash. */
  ghost predicate IsStem(stem: string, h: string, prefix: string, room: nat) {
    exists n: nat ::
      && room <= |prefix| && CutsTo(prefix[..room], {'-', '.'}, n)
      && stem == if n == 0 then h else prefix[..n] + ("-" + h)
  }

  /** With a suffix of at most 51 characters, shortening keeps the suffix whole, adds the hash, and fills the limit. */
  lemma ShortenedShape(h: string, prefix: string, suffix: string) returns (stem: string)
    requires |h| == SHORT_HASH_LENGTH && IsHex(h)
    requires |prefix| + |suffix| > MAX_LABEL_LENGTH && |suffix| <= 51
    ensures Shortened(h, prefix, suffix) == stem + suffix
    ensures IsStem(stem, h, prefix, 52 - |suffix|)
    ensures |stem + suffix| <= MAX_LABEL_LENGTH
  {
    var shortPrefix := TrimRight(prefix[..52 - |suffix|], {'-', '.'});
    var n := |shortPrefix|;
    assert CutsTo(prefix[..52 - |suffix|], {'-', '.'}, n);
    assert shortPrefix == prefix[..n];
    stem := if n == 0 then h else prefix[..n] + ("-" + h);
    StemThenSuffix(prefix[..n], h, suffix);
    assert |"-" + h + suffix| == 11 + |suffix|;
  }

  lemma StemThenSuffix(cut: string, h: string, suffix: string)
    requires h != "" && IsHex(h)
    ensures cut + ("-" + h + suffix) == cut + ("-" + h) + suffix
    ensures TrimLeft("-" + h + suffix, {'-'}) == h + suffix
  {
    assert "-" + h + suffix == "-" + (h + suffix);
    TrimOneDash(h + suffix);
  }

  /** Every Job name is the name or its shortened stem with a dash and the whole time, and stays within the limit. */
  lemma JobNameShape(hash: string -> string, name: string, t: int) returns (stem: string)
    requires IsShortHash(hash)
    requires -MAX_INT64 - 1 <= t <= MAX_INT64
    ensures JobName(hash, name, t) == stem + ("-" + Itoa(t))
    ensures |JobName(hash, name, t)| <= MAX_LABEL_LENGTH
    ensures |name| + 1 + |Itoa(t)| <= MAX_LABEL_LENGTH ==> stem == name
    ensures |name| + 1 + |Itoa(t)| > MAX_LABEL_LENGTH ==>
              |Itoa(t)| <= 51 && IsStem(stem, hash(name), name, 51 - |Itoa(t)|)
  {
    ItoaLength(t);
    var suffix := "-" + Itoa(t);
    if |name + suffix| <= MAX_LABEL_LENGTH {
      stem := name;
    } else {
      stem := ShortenedShape(hash(name), name, suffix);
    }
  }

  lemma TrimOneDash(s: string)
    requires s != "" && s[0] != '-'
    ensures TrimLeft("-" + s, {'-'}) == s
  {
    assert ("-" + s)[1..] == s;
  }

  /** Distinct non-negative Unix seconds give one cron job distinct Job names. */
  lemma JobNamesDistinct(hash: string -> string, name: string, t: int, u: int)
    requires IsShortHash(hash)
    requires 0 <= t <= MAX_INT64 && 0 <= u <= MAX_INT64
    ensures JobName(hash, name, t) == JobName(hash, name, u) <==> t == u
  {
    var p := JobNameShape(hash, name, t);
    var q := JobNameShape(hash, name, u);
    DigitsFollowLastDash(p, Digits(t));
    DigitsFollowLastDash(q, Digits(u));
    ValueOfDigits(t);
    ValueOfDigits(u);
  }
}
