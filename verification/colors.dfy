/**
 * The two colour helpers: the tag palette lookup and the avatar colour, a
 * string hash in JavaScript's 32-bit shift arithmetic reduced to one of eight
 * colours.
 */
module Colors {

  // ─── tagColor ────────────────────────────────────────────────────────────

  const TagColors: map<string, string> := map[
    "Hot" := "#ef4444", "Enterprise" := "#6366f1", "Priority" := "#f59e0b", "SMB" := "#10b981",
    "Mid-Market" := "#3b82f6", "EU" := "#8b5cf6", "Tech" := "#06b6d4", "AI" := "#ec4899"]

  const DefaultTagColor := "#64748b"

  /** `map[tag] || "#64748b"`: the tag's own colour, or slate grey for a tag the palette does not know. */
  function TagColor(tag: string): (color: string)
    ensures color == DefaultTagColor <==> tag !in TagColors
    ensures tag in TagColors ==> color == TagColors[tag]
  {
    assert DefaultTagColor !in TagColors.Values;
    if tag in TagColors && TagColors[tag] != "" then TagColors[tag] else DefaultTagColor
  }

  // ─── avatarColor ─────────────────────────────────────────────────────────

  const AvatarPalette: seq<string> :=
    ["#6366f1", "#3b82f6", "#8b5cf6", "#10b981", "#f59e0b", "#ec4899", "#06b6d4", "#ef4444"]

  const TwoTo32: int := 0x1_0000_0000
  const TwoTo31: int := 0x8000_0000

  /** ECMAScript ToInt32: the 32-bit two's-complement value congruent to `x`. */
  function ToInt32(x: int): (r: int)
    ensures -TwoTo31 <= r < TwoTo31
    ensures r % TwoTo32 == x % TwoTo32
  {
    var m := x % TwoTo32;
    if m >= TwoTo31 then m - TwoTo32 else m
  }

  /** `h << 5`: both operand and result pass through ToInt32. */
  function ShiftLeft5(h: int): int
  {
    ToInt32(ToInt32(h) * 32)
  }

  /**
   * `c.charCodeAt(0)` for a code point `c` taken by `for…of`: the code point
   * itself in the Basic Multilingual Plane, the leading surrogate above it.
   */
  function CodeUnit(c: char): (u: int)
    ensures 0 <= u < 0x1_0000
    ensures c as int < 0x1_0000 ==> u == c as int
  {
    if c as int < 0x1_0000 then c as int else 0xD800 + (c as int - 0x1_0000) / 0x400
  }

  /** One loop step: `h = (h << 5) - h + c.charCodeAt(0)`. */
  function HashStep(h: int, c: char): int
  {
    ShiftLeft5(h) - h + CodeUnit(c)
  }

  /** The value of `h` after the loop has consumed all of `s`. */
  function AvatarHash(s: string): int
  {
    if s == [] then 0 else HashStep(AvatarHash(s[..|s| - 1]), s[|s| - 1])
  }

  function Abs(x: int): nat
  {
    if x < 0 then -x else x
  }

  /** `avatarColor`: the loop over the characters, then `colors[Math.abs(h) % colors.length]`. */
  method AvatarColor(s: string) returns (color: string)
    ensures color == AvatarPalette[Abs(AvatarHash(s)) % |AvatarPalette|]
    ensures color in AvatarPalette
  {
    var h := 0;
    var i := 0;
    while i < |s|
      invariant 0 <= i <= |s|
      invariant h == AvatarHash(s[..i])
    {
      assert s[..i + 1][..i] == s[..i];
      h := HashStep(h, s[i]);
      i := i + 1;
    }
    assert s[..|s|] == s;
    color := AvatarPalette[Abs(h) % |AvatarPalette|];
  }

  /** The textbook string hash `h * 31 + c`, without any wrap-around. */
  function PolynomialHash(s: string): int
  {
    if s == [] then 0 else 31 * PolynomialHash(s[..|s| - 1]) + CodeUnit(s[|s| - 1])
  }

  /**
   * `(h << 5) - h` is `31 * h` modulo 2^32, so the loop computes the textbook
   * polynomial hash up to a multiple of 2^32.
   */
  lemma {:induction false} HashIsPolynomialModulo(s: string)
    ensures AvatarHash(s) % TwoTo32 == PolynomialHash(s) % TwoTo32
  {
    if s != [] {
      var p := s[..|s| - 1];
      var a, b := AvatarHash(p), PolynomialHash(p);
      HashIsPolynomialModulo(p);
      ShiftIsTimes32(a);
      var sh, u := ShiftLeft5(a), CodeUnit(s[|s| - 1]);
      var k := DifferenceIsMultiple(a, b);
      var j := DifferenceIsMultiple(sh, 32 * a);
      assert (sh - a + u) - (31 * b + u) == (sh - 32 * a) + 31 * (a - b);
      assert 31 * (a - b) == (31 * k) * TwoTo32;
      SameRemainder(sh - a + u, 31 * b + u, j + 31 * k);
    }
  }

  /** Equal remainders modulo 2^32 differ by a multiple of 2^32. */
  lemma DifferenceIsMultiple(x: int, y: int) returns (k: int)
    requires x % TwoTo32 == y % TwoTo32
    ensures x - y == k * TwoTo32
  {
    k := x / TwoTo32 - y / TwoTo32;
  }

  /** Numbers that differ by a multiple of 2^32 have equal remainders. */
  lemma SameRemainder(x: int, y: int, k: int)
    requires x - y == k * TwoTo32
    ensures x % TwoTo32 == y % TwoTo32
  {
  }

  /** `h << 5` is congruent to `32 * h` modulo 2^32. */
  lemma ShiftIsTimes32(h: int)
    ensures ShiftLeft5(h) % TwoTo32 == (32 * h) % TwoTo32
  {
    var k := DifferenceIsMultiple(ToInt32(h), h);
    var j := DifferenceIsMultiple(ShiftLeft5(h), ToInt32(h) * 32);
    SameRemainder(ShiftLeft5(h), 32 * h, j + 32 * k);
  }

  /**
   * `|h|` grows by at most 2^31 + 2^16 per character, so it stays below 2^53,
   * where every integer is an exact double, for names shorter than 2^21
   * characters.
   */
  lemma {:induction false} HashBound(s: string)
    ensures Abs(AvatarHash(s)) <= |s| * (TwoTo31 + 0x1_0000)
  {
    if s != [] {
      HashBound(s[..|s| - 1]);
    }
  }
}
