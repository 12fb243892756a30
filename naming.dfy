/** The names, paths and URLs the sync script derives from an id and an
    icon name. */
module Naming {

  // ---------------------------------------------------------------
  // Strings: prefixes, suffixes and the JavaScript helpers used
  // ---------------------------------------------------------------

  lemma StripPrefix(p: string, x: string, y: string)
    requires p + x == p + y
    ensures x == y
  {
    assert x == (p + x)[|p|..];
    assert y == (p + y)[|p|..];
  }

  lemma StripSuffix(x: string, y: string, q: string)
    requires x + q == y + q
    ensures x == y
  {
    assert x == (x + q)[..|x|];
    assert y == (y + q)[..|y|];
  }

  /** What sits between a common prefix and a common suffix is determined. */
  lemma StripFrame(p: string, x: string, y: string, q: string)
    requires p + x + q == p + y + q
    ensures x == y
  {
    var u := p + x + q;
    assert |x| == |y|;
    assert x == u[|p|..|p| + |x|];
    assert y == (p + y + q)[|p|..|p| + |y|];
  }

  /** A separator that occurs in neither head splits both strings at the
      same place. */
  lemma SplitAtSeparator(a1: string, r1: string, a2: string, r2: string, c: char)
    requires c !in a1 && c !in a2
    requires a1 + [c] + r1 == a2 + [c] + r2
    ensures a1 == a2 && r1 == r2
  {
    BeforeSeparator(a1, r1, c);
    BeforeSeparator(a2, r2, c);
    assert a1 + [c] + r1 == (a1 + [c]) + r1;
    StripPrefix(a1 + [c], r1, r2);
  }

  /** What precedes the first `c` in `s` (all of `s` when there is none). */
  function Before(s: string, c: char): string
    decreases |s|
  {
    if |s| == 0 || s[0] == c then "" else [s[0]] + Before(s[1..], c)
  }

  lemma {:induction false} BeforeSeparator(a: string, r: string, c: char)
    requires c !in a
    ensures Before(a + [c] + r, c) == a
    decreases |a|
  {
    var u := a + [c] + r;
    if |a| > 0 {
      assert u[1..] == a[1..] + [c] + r;
      BeforeSeparator(a[1..], r, c);
      assert [a[0]] + a[1..] == a;
    }
  }

  /** `s.slice(-k)` for `k > 0`: the last `k` characters, or all of `s`
      when it is shorter. */
  function Suffix(s: string, k: nat): (r: string)
    ensures |r| == if |s| <= k then |s| else k
    ensures r == s[|s| - |r|..]
  {
    if |s| <= k then s else s[|s| - k..]
  }

  predicate IsDigit(c: char) {
    '0' <= c <= '9'
  }

  predicate AllDigits(s: string) {
    forall i :: 0 <= i < |s| ==> IsDigit(s[i])
  }

  function DigitChar(d: nat): (c: char)
    requires d < 10
    ensures IsDigit(c)
  {
    ('0' as int + d) as char
  }

  function DigitValue(c: char): (d: nat)
    requires IsDigit(c)
    ensures d < 10 && DigitChar(d) == c
  {
    c as int - '0' as int
  }

  function Pow10(k: nat): (p: nat)
    ensures p >= 1
  {
    if k == 0 then 1 else 10 * Pow10(k - 1)
  }

  /** The decimal digits of `n`, most significant first, without leading zeros. */
  function Digits(n: nat): (s: string)
    ensures 1 <= |s| && AllDigits(s)
    ensures |s| > 1 ==> s[0] != '0'
    ensures n < Pow10(|s|)
    ensures |s| > 1 ==> n >= 10
    decreases n
  {
    if n < 10 then [DigitChar(n)] else Digits(n / 10) + [DigitChar(n % 10)]
  }

  /** Reads a digit string back as a number. */
  function DigitsValue(s: string): nat
    requires AllDigits(s)
  {
    if |s| == 0 then 0 else 10 * DigitsValue(s[..|s| - 1]) + DigitValue(s[|s| - 1])
  }

  lemma {:induction false} DigitsRoundTrip(n: nat)
    ensures DigitsValue(Digits(n)) == n
    decreases n
  {
    if n >= 10 {
      DigitsRoundTrip(n / 10);
      var s := Digits(n);
      assert s[..|s| - 1] == Digits(n / 10);
    }
  }

  /** `n.toString()` for an integer `n`. */
  function DecimalString(n: int): string {
    if n < 0 then "-" + Digits(-n) else Digits(n)
  }

  /** Reads `DecimalString`'s output back. */
  function ParseDecimal(s: string): int
    requires AllDigits(s) || (|s| > 0 && s[0] == '-' && AllDigits(s[1..]))
  {
    if |s| > 0 && s[0] == '-' then -(DigitsValue(s[1..]) as int) else DigitsValue(s)
  }

  lemma DecimalRoundTrip(n: int)
    ensures var s := DecimalString(n);
      (AllDigits(s) || (|s| > 0 && s[0] == '-' && AllDigits(s[1..]))) && ParseDecimal(s) == n
  {
    var s := DecimalString(n);
    if n < 0 {
      var m: nat := -n;
      DigitsRoundTrip(m);
      assert s == "-" + Digits(m);
      assert s[1..] == Digits(m);
    } else {
      DigitsRoundTrip(n);
      assert s == Digits(n);
      assert IsDigit(s[0]);
    }
  }

  /** Different ids have different decimal strings. */
  lemma DecimalInjective(a: int, b: int)
    ensures DecimalString(a) == DecimalString(b) ==> a == b
  {
    DecimalRoundTrip(a);
    DecimalRoundTrip(b);
  }

  // ---------------------------------------------------------------
  // Lines 94-95: `lastIdNumbers` and `iconName`
  // ---------------------------------------------------------------

  /** `id.toString().slice(-3)` */
  function LastIdNumbers(id: int): string {
    Suffix(DecimalString(id), 3)
  }

  lemma ModStep(n: nat, p: nat)
    requires p >= 1
    ensures n % (10 * p) == 10 * ((n / 10) % p) + n % 10
  {
    var q := n / 10;
    var r := n % 10;
    var a := q / p;
    var b := q % p;
    assert n == 10 * q + r;
    assert q == p * a + b;
    assert n == (10 * p) * a + (10 * b + r);
    assert 0 <= 10 * b + r < 10 * p;
    ModUnique(n, 10 * p, a, 10 * b + r);
  }

  lemma MulAtLeast(m: nat, d: nat)
    requires d >= 1
    ensures m * d >= m
    decreases d
  {
    if d > 1 {
      MulAtLeast(m, d - 1);
      assert m * d == m * (d - 1) + m;
    }
  }

  lemma ModUnique(x: nat, m: nat, a: nat, y: nat)
    requires m >= 1 && x == m * a + y && y < m
    ensures x % m == y
  {
    var a' := x / m;
    var y' := x % m;
    assert x == m * a' + y';
    if a < a' {
      MulAtLeast(m, a' - a);
    } else if a' < a {
      MulAtLeast(m, a - a');
    }
  }

  lemma Pow10Monotone(j: nat, k: nat)
    requires j <= k
    ensures Pow10(j) <= Pow10(k)
    decreases k
  {
    if j < k {
      Pow10Monotone(j, k - 1);
    }
  }

  lemma DigitsValueSnoc(t: string, c: char)
    requires AllDigits(t) && IsDigit(c)
    ensures AllDigits(t + [c])
    ensures DigitsValue(t + [c]) == 10 * DigitsValue(t) + DigitValue(c)
  {
    assert (t + [c])[..|t|] == t;
  }

  lemma SuffixSnoc(t: string, c: char, k: nat)
    requires 0 < k <= |t|
    ensures Suffix(t + [c], k) == Suffix(t, k - 1) + [c]
  {
  }

  /** `n mod 10^k` in terms of `n / 10`: the low `k - 1` digits of `n / 10`
      followed by the last digit of `n`. */
  lemma ModPow10Step(n: nat, k: nat)
    requires k > 0
    ensures n % Pow10(k) == 10 * ((n / 10) % Pow10(k - 1)) + n % 10
  {
    var p := Pow10(k - 1);
    assert Pow10(k) == 10 * p;
    ModStep(n, p);
  }

  lemma DigitsSnoc(n: nat)
    requires n >= 10
    ensures Digits(n) == Digits(n / 10) + [DigitChar(n % 10)]
  {
  }

  lemma DigitCharValue(d: nat)
    requires d < 10
    ensures DigitValue(DigitChar(d)) == d
  {
  }

  /** One more digit: the last `k` digits of `n` are the last `k - 1`
      digits of `n / 10` followed by the digit `n % 10`. */
  lemma SuffixValueStep(n: nat, k: nat)
    requires 0 < k < |Digits(n)|
    requires AllDigits(Suffix(Digits(n / 10), k - 1))
    requires DigitsValue(Suffix(Digits(n / 10), k - 1)) == (n / 10) % Pow10(k - 1)
    ensures AllDigits(Suffix(Digits(n), k))
    ensures DigitsValue(Suffix(Digits(n), k)) == n % Pow10(k)
  {
    var t := Digits(n / 10);
    var d := n % 10;
    var c := DigitChar(d);
    var low := Suffix(t, k - 1);
    DigitsSnoc(n);
    SuffixSnoc(t, c, k);
    DigitsValueSnoc(low, c);
    DigitCharValue(d);
    ModPow10Step(n, k);
  }

  /** The last `k` digits of `n` read back as a number are `n` modulo `10^k`. */
  lemma {:induction false} SuffixValue(n: nat, k: nat)
    ensures AllDigits(Suffix(Digits(n), k))
    ensures DigitsValue(Suffix(Digits(n), k)) == n % Pow10(k)
    decreases n
  {
    var s := Digits(n);
    if |s| <= k {
      DigitsRoundTrip(n);
      Pow10Monotone(|s|, k);
      ModUnique(n, Pow10(k), 0, n);
    } else if k == 0 {
      assert Suffix(s, 0) == [];
      ModUnique(n, 1, n, 0);
    } else {
      SuffixValue(n / 10, k - 1);
      SuffixValueStep(n, k);
    }
  }

  /** For a non-negative id, `lastIdNumbers` is the id modulo 1000 in decimal. */
  lemma LastIdNumbersValue(id: nat)
    ensures AllDigits(LastIdNumbers(id))
    ensures DigitsValue(LastIdNumbers(id)) == id % 1000
  {
    SuffixValue(id, 3);
    assert Pow10(3) == 1000;
  }

  /** `s.split('_').pop()`: what follows the last underscore, or all of `s`. */
  function LastSegment(s: string): (r: string)
    ensures '_' !in r
    ensures |r| <= |s| && r == s[|s| - |r|..]
    ensures |r| == |s| || s[|s| - |r| - 1] == '_'
    decreases |s|
  {
    if |s| == 0 then ""
    else if s[|s| - 1] == '_' then ""
    else LastSegment(s[..|s| - 1]) + [s[|s| - 1]]
  }

  /** The segment after a last underscore is recovered exactly. */
  lemma {:induction false} LastSegmentOf(a: string, b: string)
    requires '_' !in b
    ensures LastSegment(a + "_" + b) == b
    decreases |b|
  {
    var s := a + "_" + b;
    if |b| == 0 {
      assert s[|s| - 1] == '_';
    } else {
      var b' := b[..|b| - 1];
      assert s[..|s| - 1] == a + "_" + b';
      assert s[|s| - 1] == b[|b| - 1];
      LastSegmentOf(a, b');
      assert b' + [b[|b| - 1]] == b;
    }
  }

  /** A name without underscores is its own last segment. */
  lemma {:induction false} LastSegmentWhole(b: string)
    requires '_' !in b
    ensures LastSegment(b) == b
    decreases |b|
  {
    if |b| > 0 {
      var b' := b[..|b| - 1];
      var c := b[|b| - 1];
      assert c in b;
      assert forall i :: 0 <= i < |b'| ==> b'[i] == b[i];
      LastSegmentWhole(b');
      assert LastSegment(b) == LastSegment(b') + [c];
      assert b' + [c] == b;
    }
  }

  /** `toLowerCase` on the ASCII letters. */
  function LowerChar(c: char): char {
    if 'A' <= c <= 'Z' then (c as int + 32) as char else c
  }

  function LowerAscii(s: string): (r: string)
    ensures |r| == |s|
  {
    seq(|s|, i requires 0 <= i < |s| => LowerChar(s[i]))
  }

  /** Lower-casing turns each capital into its small letter, touches
      nothing else, keeps underscores where they were, and is idempotent. */
  lemma LowerAsciiFacts(s: string)
    ensures forall i :: 0 <= i < |s| && 'A' <= s[i] <= 'Z' ==>
      LowerAscii(s)[i] == "abcdefghijklmnopqrstuvwxyz"[s[i] as int - 'A' as int]
    ensures forall i :: 0 <= i < |s| ==> !('A' <= LowerAscii(s)[i] <= 'Z')
    ensures forall i :: 0 <= i < |s| && !('A' <= s[i] <= 'Z') ==> LowerAscii(s)[i] == s[i]
    ensures forall i :: 0 <= i < |s| ==> (LowerAscii(s)[i] == '_' <==> s[i] == '_')
    ensures LowerAscii(LowerAscii(s)) == LowerAscii(s)
  {
  }

  /** `character.icon.name.split('_').pop().toLowerCase()` */
  function IconName(name: string): (r: string)
    ensures '_' !in r
    ensures |r| <= |name|
  {
    LowerAscii(LastSegment(name))
  }

  // ---------------------------------------------------------------
  // Lines 99-100: the gacha image URLs
  // ---------------------------------------------------------------

  const HoneyHunterImg: string := "https://gensh.honeyhunterworld.com/img/"

  function GachaCardUrl(iconName: string, lastIdNumbers: string): string {
    HoneyHunterImg + iconName + "_" + lastIdNumbers + "_gacha_card.webp"
  }

  function GachaSplashUrl(iconName: string, lastIdNumbers: string): string {
    HoneyHunterImg + iconName + "_" + lastIdNumbers + "_gacha_splash.webp"
  }

  /** Distinct icon names or id endings give distinct card URLs; the names
      carry no underscore, so the first underscore after the host marks
      where the name ends. */
  lemma GachaCardUrlInjective(a1: string, l1: string, a2: string, l2: string)
    requires '_' !in a1 && '_' !in a2
    ensures GachaCardUrl(a1, l1) == GachaCardUrl(a2, l2) ==> a1 == a2 && l1 == l2
  {
    if GachaCardUrl(a1, l1) == GachaCardUrl(a2, l2) {
      var t := "_gacha_card.webp";
      assert GachaCardUrl(a1, l1) == HoneyHunterImg + (a1 + "_" + (l1 + t));
      assert GachaCardUrl(a2, l2) == HoneyHunterImg + (a2 + "_" + (l2 + t));
      StripPrefix(HoneyHunterImg, a1 + "_" + (l1 + t), a2 + "_" + (l2 + t));
      SplitAtSeparator(a1, l1 + t, a2, l2 + t, '_');
      StripSuffix(l1, l2, t);
    }
  }

  lemma GachaSplashUrlInjective(a1: string, l1: string, a2: string, l2: string)
    requires '_' !in a1 && '_' !in a2
    ensures GachaSplashUrl(a1, l1) == GachaSplashUrl(a2, l2) ==> a1 == a2 && l1 == l2
  {
    if GachaSplashUrl(a1, l1) == GachaSplashUrl(a2, l2) {
      var t := "_gacha_splash.webp";
      assert GachaSplashUrl(a1, l1) == HoneyHunterImg + (a1 + "_" + (l1 + t));
      assert GachaSplashUrl(a2, l2) == HoneyHunterImg + (a2 + "_" + (l2 + t));
      StripPrefix(HoneyHunterImg, a1 + "_" + (l1 + t), a2 + "_" + (l2 + t));
      SplitAtSeparator(a1, l1 + t, a2, l2 + t, '_');
      StripSuffix(l1, l2, t);
    }
  }

  /** A card URL is never a splash URL: they differ six characters from the end. */
  lemma CardNotSplash(a1: string, l1: string, a2: string, l2: string)
    ensures GachaCardUrl(a1, l1) != GachaSplashUrl(a2, l2)
  {
    var u := GachaCardUrl(a1, l1);
    var v := GachaSplashUrl(a2, l2);
    assert u[|u| - 6] == 'd';
    assert v[|v| - 6] == 'h';
  }

  // ---------------------------------------------------------------
  // Lines 137-139, 209, 259: repository paths; 154-156, 217, 254-260: URLs
  // ---------------------------------------------------------------

  function CharacterIconPath(id: int): string {
    "images/characters/icons/" + DecimalString(id) + ".png"
  }

  function CharacterGachaCardPath(id: int): string {
    "images/characters/gacha-card/" + DecimalString(id) + ".webp"
  }

  function CharacterGachaSplashPath(id: int): string {
    "images/characters/gacha-splash/" + DecimalString(id) + ".webp"
  }

  function WeaponPath(awakenIconName: string): string {
    "images/weapons/" + awakenIconName + ".png"
  }

  /** Line 259, with `dirPath` of line 255. */
  function AvatarPath(iconPath: string): string {
    "images/avatars" + "/" + iconPath + ".png"
  }

  /** Distinct ids get distinct files in each character directory. */
  lemma CharacterPathsInjective(a: int, b: int)
    ensures CharacterIconPath(a) == CharacterIconPath(b) ==> a == b
    ensures CharacterGachaCardPath(a) == CharacterGachaCardPath(b) ==> a == b
    ensures CharacterGachaSplashPath(a) == CharacterGachaSplashPath(b) ==> a == b
  {
    DecimalInjective(a, b);
    if CharacterIconPath(a) == CharacterIconPath(b) {
      StripFrame("images/characters/icons/", DecimalString(a), DecimalString(b), ".png");
    }
    if CharacterGachaCardPath(a) == CharacterGachaCardPath(b) {
      StripFrame("images/characters/gacha-card/", DecimalString(a), DecimalString(b), ".webp");
    }
    if CharacterGachaSplashPath(a) == CharacterGachaSplashPath(b) {
      StripFrame("images/characters/gacha-splash/", DecimalString(a), DecimalString(b), ".webp");
    }
  }

  /** Distinct icon names get distinct weapon files. */
  lemma WeaponPathInjective(a: string, b: string)
    ensures WeaponPath(a) == WeaponPath(b) ==> a == b
  {
    if WeaponPath(a) == WeaponPath(b) {
      StripFrame("images/weapons/", a, b, ".png");
    }
  }

  /** Distinct icon paths get distinct avatar files. */
  lemma AvatarPathInjective(a: string, b: string)
    ensures AvatarPath(a) == AvatarPath(b) ==> a == b
  {
    if AvatarPath(a) == AvatarPath(b) {
      StripFrame("images/avatars" + "/", a, b, ".png");
    }
  }

  /** The repository the images are published to. */
  datatype GitHub = GitHub(user: string, repo: string, branch: string)

  /** `https://raw.githubusercontent.com/${GITHUB_USER}/${REPO_NAME}/${BRANCH}/${path}` */
  function RawUrl(cfg: GitHub, path: string): string {
    "https://raw.githubusercontent.com/" + cfg.user + "/" + cfg.repo + "/" + cfg.branch + "/" + path
  }

  /** Line 254: `gitHubUrl`, the same address without a path. */
  function RawBase(cfg: GitHub): string {
    "https://raw.githubusercontent.com/" + cfg.user + "/" + cfg.repo + "/" + cfg.branch
  }

  /** Line 260: `${gitHubUrl}/${path}`. */
  function AvatarUrl(cfg: GitHub, iconPath: string): (r: string)
    ensures r == RawUrl(cfg, AvatarPath(iconPath))
  {
    RawBase(cfg) + "/" + AvatarPath(iconPath)
  }

  /** One repository publishes distinct paths at distinct URLs. */
  lemma RawUrlInjective(cfg: GitHub, p: string, q: string)
    ensures RawUrl(cfg, p) == RawUrl(cfg, q) ==> p == q
  {
    var base := RawBase(cfg) + "/";
    assert RawUrl(cfg, p) == base + p;
    assert RawUrl(cfg, q) == base + q;
    if RawUrl(cfg, p) == RawUrl(cfg, q) {
      StripPrefix(base, p, q);
    }
  }

  /** Line 200: where a weapon's icon is fetched. */
  function WeaponFetchUrl(awakenIconName: string): string {
    "https://api.hakush.in/gi/UI/" + awakenIconName + ".webp"
  }

  /** Line 262: where an avatar is fetched. */
  function AvatarFetchUrl(iconPath: string): string {
    "https://enka.network/ui/" + iconPath + ".png"
  }
}
