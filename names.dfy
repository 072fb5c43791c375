/** Container-name generation: `NAME_RE.sub("", base.lower())`, where
    `NAME_RE` matches every character outside `[a-z0-9-]`, followed by `-` and
    a `%y%m%d%H%M%S` UTC timestamp. */
module Names {
  import opened Text

  /** The characters `NAME_RE` does not match. */
  predicate IsAllowed(c: char) { 'a' <= c <= 'z' || '0' <= c <= '9' || c == '-' }

  predicate AllAllowed(s: string) { forall i :: 0 <= i < |s| ==> IsAllowed(s[i]) }

  /** Deletes every character `NAME_RE` matches, keeping the rest in order. */
  function Sanitize(s: string): (r: string)
    ensures AllAllowed(r)
    ensures |r| <= |s|
  {
    if s == [] then [] else (if IsAllowed(s[0]) then [s[0]] else []) + Sanitize(s[1..])
  }

  /** Sanitising keeps every allowed character as often as it occurs and drops
      every other one. */
  lemma {:induction false} SanitizeCounts(s: string, c: char)
    ensures multiset(Sanitize(s))[c] == if IsAllowed(c) then multiset(s)[c] else 0
  {
    if s != [] {
      SanitizeCounts(s[1..], c);
      assert s == [s[0]] + s[1..];
    }
  }

  /** A string already within `[a-z0-9-]` is left as it is. */
  lemma {:induction false} SanitizeAllowed(s: string)
    requires AllAllowed(s)
    ensures Sanitize(s) == s
  {
    if s != [] {
      SanitizeAllowed(s[1..]);
    }
  }

  lemma {:induction false} SanitizeConcat(a: string, b: string)
    ensures Sanitize(a + b) == Sanitize(a) + Sanitize(b)
  {
    if a != [] {
      assert (a + b)[1..] == a[1..] + b;
      SanitizeConcat(a[1..], b);
    } else {
      assert a + b == b;
    }
  }

  lemma SanitizeIdempotent(s: string)
    ensures Sanitize(Sanitize(s)) == Sanitize(s)
  {
    SanitizeAllowed(Sanitize(s));
  }

  /** The base string `f"user{id}-{tag}"` the handlers build a name from;
      `tag` is the plan key, or "custom" for an admin create. */
  function OwnerBase(owner: nat, tag: string): string
  {
    "user" + Decimal(owner) + "-" + tag
  }

  /** Sanitising an owner base keeps the owner id intact: only the tag loses
      characters. */
  lemma OwnerBaseSanitized(owner: nat, tag: string)
    ensures Sanitize(Lower(OwnerBase(owner, tag))) == "user" + Decimal(owner) + "-" + Sanitize(Lower(tag))
  {
    var head := "user" + Decimal(owner) + "-";
    assert OwnerBase(owner, tag) == head + tag;
    LowerConcat(head, tag);
    LowerOfLower(head);
    SanitizeConcat(head, Lower(tag));
    SanitizeAllowed(head);
  }

  /** A UTC date and time as `datetime` holds it. */
  datatype Stamp = Stamp(year: nat, month: nat, day: nat, hour: nat, minute: nat, second: nat)

  predicate ValidStamp(t: Stamp)
  {
    1 <= t.year <= 9999 && 1 <= t.month <= 12 && 1 <= t.day <= 31 &&
    t.hour < 24 && t.minute < 60 && t.second < 60
  }

  /** Two stamps that `%y%m%d%H%M%S` cannot tell apart: same second, same
      year of the century. */
  predicate SameSecond(t: Stamp, u: Stamp)
  {
    t.year % 100 == u.year % 100 && t.month == u.month && t.day == u.day &&
    t.hour == u.hour && t.minute == u.minute && t.second == u.second
  }

  /** A zero-padded two-digit field (`%y`, `%m`, `%d`, `%H`, `%M`, `%S`). */
  function Pad2(n: nat): (r: string)
    requires n < 100
    ensures |r| == 2 && AllDigits(r)
  {
    [DigitChar(n / 10), DigitChar(n % 10)]
  }

  lemma Pad2Injective(m: nat, n: nat)
    requires m < 100 && n < 100
    ensures Pad2(m) == Pad2(n) <==> m == n
  {
  }

  /** `strftime("%y%m%d%H%M%S")`. */
  function Suffix(t: Stamp): (r: string)
    requires ValidStamp(t)
    ensures |r| == 12 && AllDigits(r)
  {
    Pad2(t.year % 100) + Pad2(t.month) + Pad2(t.day) + Pad2(t.hour) + Pad2(t.minute) + Pad2(t.second)
  }

  /** The suffix determines the stamp up to the century, and only that. */
  lemma SuffixInjective(t: Stamp, u: Stamp)
    requires ValidStamp(t) && ValidStamp(u)
    ensures Suffix(t) == Suffix(u) <==> SameSecond(t, u)
  {
    var s, v := Suffix(t), Suffix(u);
    if s == v {
      assert s[0..2] == Pad2(t.year % 100) && v[0..2] == Pad2(u.year % 100);
      assert s[2..4] == Pad2(t.month) && v[2..4] == Pad2(u.month);
      assert s[4..6] == Pad2(t.day) && v[4..6] == Pad2(u.day);
      assert s[6..8] == Pad2(t.hour) && v[6..8] == Pad2(u.hour);
      assert s[8..10] == Pad2(t.minute) && v[8..10] == Pad2(u.minute);
      assert s[10..12] == Pad2(t.second) && v[10..12] == Pad2(u.second);
      Pad2Injective(t.year % 100, u.year % 100);
      Pad2Injective(t.month, u.month);
      Pad2Injective(t.day, u.day);
      Pad2Injective(t.hour, u.hour);
      Pad2Injective(t.minute, u.minute);
      Pad2Injective(t.second, u.second);
    }
  }

  /** `f"{safe}-{suffix}"` with `safe = NAME_RE.sub("", base.lower())`. The name
      lies within `[a-z0-9-]`: the sanitised base, then `-`, then the 12-digit
      suffix. */
  function ContainerName(base: string, t: Stamp): (r: string)
    requires ValidStamp(t)
    ensures AllAllowed(r)
    ensures |r| == |Sanitize(Lower(base))| + 13
    ensures r[..|r| - 13] == Sanitize(Lower(base))
    ensures r[|r| - 13] == '-' && r[|r| - 12..] == Suffix(t)
  {
    Sanitize(Lower(base)) + "-" + Suffix(t)
  }

  /** Names generated in different seconds differ, whatever their bases; the
      same base in the same second gives the same name. */
  lemma DistinctSecondsDistinctNames(b1: string, t1: Stamp, b2: string, t2: Stamp)
    requires ValidStamp(t1) && ValidStamp(t2)
    ensures !SameSecond(t1, t2) ==> ContainerName(b1, t1) != ContainerName(b2, t2)
    ensures b1 == b2 && SameSecond(t1, t2) ==> ContainerName(b1, t1) == ContainerName(b2, t2)
  {
    SuffixInjective(t1, t2);
    var n1, n2 := ContainerName(b1, t1), ContainerName(b2, t2);
    if n1 == n2 {
      assert n1[|n1| - 12..] == n2[|n2| - 12..];
    }
  }

  /** A run of digits followed by `-` cannot be a proper prefix of another
      such run: the `-` would have to be a digit. */
  lemma DigitsBeforeDash(a: string, x: string, b: string, y: string)
    requires AllDigits(a) && AllDigits(b)
    requires "user" + a + "-" + x == "user" + b + "-" + y
    ensures a == b
  {
    var s := "user" + a + "-" + x;
    assert s == "user" + b + "-" + y;
    assert s[4 + |a|] == '-' && s[4 + |b|] == '-';
    assert forall i :: 0 <= i < |a| ==> s[4 + i] == a[i];
    assert forall i :: 0 <= i < |b| ==> s[4 + i] == b[i];
    assert |a| == |b|;
    assert a == s[4..4 + |a|] && b == s[4..4 + |b|];
  }

  /** A generated name is `user`, the owner's digits, `-`, and a rest. */
  lemma NameShape(o: nat, tag: string, t: Stamp) returns (rest: string)
    requires ValidStamp(t)
    ensures ContainerName(OwnerBase(o, tag), t) == "user" + Decimal(o) + "-" + rest
  {
    OwnerBaseSanitized(o, tag);
    rest := Sanitize(Lower(tag)) + "-" + Suffix(t);
    var head := "user" + Decimal(o) + "-";
    assert Sanitize(Lower(OwnerBase(o, tag))) == head + Sanitize(Lower(tag));
    assert ContainerName(OwnerBase(o, tag), t) == head + Sanitize(Lower(tag)) + "-" + Suffix(t);
  }

  /** A generated name determines its owner: names generated for two different
      users never collide, whatever their tags and stamps. */
  lemma NameDeterminesOwner(o1: nat, tag1: string, t1: Stamp, o2: nat, tag2: string, t2: Stamp)
    requires ValidStamp(t1) && ValidStamp(t2)
    requires ContainerName(OwnerBase(o1, tag1), t1) == ContainerName(OwnerBase(o2, tag2), t2)
    ensures o1 == o2
  {
    var r1 := NameShape(o1, tag1, t1);
    var r2 := NameShape(o2, tag2, t2);
    DigitsBeforeDash(Decimal(o1), r1, Decimal(o2), r2);
    DecimalValue(o1);
    DecimalValue(o2);
  }
}
