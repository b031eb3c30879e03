/** Which circles fit 32 bits. A walk of radius r leaves them exactly when, j rows below the top, a square lies in
    a narrow window around 2 * j * r (`Circles.OverflowsExactly`); up to the limit none of the windows holds one,
    and far enough beyond it the top one always does.
 */
module RadiusLimit {
  const RADIUS_LIMIT := 715_827_998
  const ALWAYS_OVERFLOWS := 715_845_720
  const INT_MAX := 0x7fff_ffff

  lemma SquareGrows(u: int, v: int)
    requires 0 <= u <= v
    ensures u * u <= v * v
  {
    assert u * (v - u) >= 0 && v * (v - u) >= 0;
  }

  // The window for the square: what it takes to pass 2^31, and what the turn's test allows.

  function Least(r: int, j: int): int { INT_MAX - 2 * (r - j) + 2 * (j * r) - j * j }

  function Most(r: int, j: int): int { r - j - 1 + 2 * (j * r) - j * j }

  predicate InWindow(r: int, j: int, n: int) {
    0 <= j < r && n >= 0 && Least(r, j) <= n * n <= Most(r, j)
  }

  ghost predicate HasSquare(r: int) {
    exists j, n :: InWindow(r, j, n)
  }

  lemma InWindowSigns(r: int, j: int, n: int)
    requires InWindow(r, j, n)
    ensures 0 <= j < r && n >= 0
  {
  }

  // The root whose square is the last one below the window, a quarter of the rows at a time.

  function Root0(j: int): int {
    match j
    case 0 => 26_754 case 1 => 46_340 case 2 => 59_825 case 3 => 70_786 case 4 => 80_264 case 5 => 88_736
    case 6 => 96_466 case 7 => 103_621 case 8 => 110_313 case 9 => 116_622 case 10 => 122_606 case 11 => 128_312
    case 12 => 133_774 case 13 => 139_022 case 14 => 144_079 case 15 => 148_965 case 16 => 153_695 case 17 => 158_284
    case 18 => 162_744 case 19 => 167_084 case 20 => 171_315 case 21 => 175_444 case 22 => 179_477 case 23 => 183_422
    case 24 => 187_284 case 25 => 191_068 case 26 => 194_779 case 27 => 198_420 case 28 => 201_995
    case _ => 0
  }

  function Root29(j: int): int {
    match j
    case 29 => 205_508 case 30 => 208_962 case 31 => 212_360 case 32 => 215_705 case 33 => 218_998 case 34 => 222_243
    case 35 => 225_441 case 36 => 228_594 case 37 => 231_704 case 38 => 234_773 case 39 => 237_803 case 40 => 240_794
    case 41 => 243_749 case 42 => 246_668 case 43 => 249_553 case 44 => 252_405 case 45 => 255_226 case 46 => 258_015
    case 47 => 260_775 case 48 => 263_505 case 49 => 266_208 case 50 => 268_884 case 51 => 271_533 case 52 => 274_156
    case 53 => 276_755 case 54 => 279_329 case 55 => 281_880 case 56 => 284_409 case 57 => 286_914
    case _ => 0
  }

  function Root58(j: int): int {
    match j
    case 58 => 289_399 case 59 => 291_862 case 60 => 294_304 case 61 => 296_726 case 62 => 299_129 case 63 => 301_513
    case 64 => 303_877 case 65 => 306_224 case 66 => 308_553 case 67 => 310_864 case 68 => 313_158 case 69 => 315_436
    case 70 => 317_697 case 71 => 319_942 case 72 => 322_172 case 73 => 324_386 case 74 => 326_585 case 75 => 328_770
    case 76 => 330_940 case 77 => 333_096 case 78 => 335_238 case 79 => 337_367 case 80 => 339_482 case 81 => 341_584
    case 82 => 343_673 case 83 => 345_750 case 84 => 347_814 case 85 => 349_866 case 86 => 351_906
    case _ => 0
  }

  function Root87(j: int): int {
    match j
    case 87 => 353_934 case 88 => 355_951 case 89 => 357_956 case 90 => 359_951 case 91 => 361_934 case 92 => 363_906
    case 93 => 365_868 case 94 => 367_819 case 95 => 369_760 case 96 => 371_691 case 97 => 373_612 case 98 => 375_523
    case 99 => 377_425 case 100 => 379_317 case 101 => 381_199 case 102 => 383_072 case 103 => 384_936 case 104 => 386_791
    case 105 => 388_638 case 106 => 390_475 case 107 => 392_304 case 108 => 394_125 case 109 => 395_937 case 110 => 397_741
    case 111 => 399_536 case 112 => 401_324 case 113 => 403_104 case 114 => 404_876 case 115 => 406_640
    case _ => 0
  }

  function Root(j: int): int {
    if j < 29 then Root0(j) else if j < 58 then Root29(j) else if j < 87 then Root58(j) else Root87(j)
  }

  /** Between two radii the squares of k and k + 1 stay on either side of the window. */
  predicate Clear(first: int, last: int, j: int, k: int) {
    k > 0 && k * k < Least(first, j) && Most(last, j) < (k + 1) * (k + 1)
  }

  predicate RowIsClear(j: int, k: int) {
    Clear(715_827_883 + j, if j == 55 then 715_827_939 else RADIUS_LIMIT, j, k)
  }

  lemma Rows0(j: int)
    requires 1 <= j < 29
    ensures RowIsClear(j, Root0(j))
  {
  }

  lemma Rows29(j: int)
    requires 29 <= j < 58
    ensures RowIsClear(j, Root29(j))
  {
  }

  lemma Rows58(j: int)
    requires 58 <= j < 87
    ensures RowIsClear(j, Root58(j))
  {
  }

  lemma Rows87(j: int)
    requires 87 <= j < 116
    ensures RowIsClear(j, Root87(j))
  {
  }

  lemma RowsAreClear(j: int)
    requires 1 <= j < 116
    ensures RowIsClear(j, Root(j))
  {
    hide RowIsClear;
    if j < 29 {
      Rows0(j);
    } else if j < 58 {
      Rows29(j);
    } else if j < 87 {
      Rows58(j);
    } else {
      Rows87(j);
    }
  }

  /** The one square that the window moves past, and the one row whose window moves down. */
  lemma TwoMoreRoots()
    ensures Clear(715_827_940, RADIUS_LIMIT, 55, Root(55) + 1)
    ensures Clear(RADIUS_LIMIT, RADIUS_LIMIT, 0, Root(0))
  {
  }

  lemma NoSquare(r: int, j: int, n: int)
    requires 0 <= j < 116 && 715_827_883 + j <= r <= RADIUS_LIMIT && n >= 0
    ensures n * n < Least(r, j) || Most(r, j) < n * n
  {
    if j == 0 {
      TwoMoreRoots();
      Between(n, Root(0));
    } else if j == 55 && r >= 715_827_940 {
      TwoMoreRoots();
      WindowMoves(715_827_940, r, j);
      WindowMoves(r, RADIUS_LIMIT, j);
      Between(n, Root(55) + 1);
    } else {
      RowsAreClear(j);
      WindowMoves(715_827_883 + j, r, j);
      WindowMoves(r, if j == 55 then 715_827_939 else RADIUS_LIMIT, j);
      Between(n, Root(j));
    }
  }

  lemma WindowMoves(r: int, s: int, j: int)
    requires r <= s && j >= 1
    ensures Least(r, j) <= Least(s, j) && Most(r, j) <= Most(s, j)
  {
    assert j * (s - r) >= s - r;
    assert j * (s - r) == j * s - j * r;
  }

  lemma Between(n: int, k: int)
    requires n >= 0 && k >= 0
    ensures n * n <= k * k || n * n >= (k + 1) * (k + 1)
  {
    if n <= k {
      SquareGrows(n, k);
    } else {
      SquareGrows(k + 1, n);
    }
  }

  lemma RootIsSmall(r: int, n: int)
    requires r >= ALWAYS_OVERFLOWS && n >= 0 && n * n <= r - 1
    ensures 3 * r - 2 * n > INT_MAX
  {
    if n > 26_755 {
      assert (n - 26_756) * n >= 0;
    }
  }

  lemma SquareRoot(x: int) returns (n: int)
    requires x >= 0
    ensures n >= 0 && n * n <= x < (n + 1) * (n + 1)
  {
    n := 0;
    while (n + 1) * (n + 1) <= x
      invariant n >= 0 && n * n <= x
      decreases x - n * n
    {
      n := n + 1;
    }
  }

  /** The window of the top row holds the largest square below r. */
  lemma TopWindow(r: int)
    requires r >= ALWAYS_OVERFLOWS
    ensures HasSquare(r)
  {
    var n := SquareRoot(r - 1);
    RootIsSmall(r, n);
    assert (n + 1) * (n + 1) == n * n + 2 * n + 1;
    assert InWindow(r, 0, n);
  }

  lemma HighByBounds(r: int, j: int, jr: int, jj: int)
    requires 0 <= j < r < ALWAYS_OVERFLOWS && jr >= jj >= 0
    ensures INT_MAX - 2 * (r - j) + 2 * jr - jj <= r - j - 1 + 2 * jr - jj ==> r - j >= 715_827_883 && j <= 17_836
    ensures INT_MAX - 2 * (r - j) + 2 * jr - jj >= INT_MAX - 2 * r
  {
  }

  lemma RowIsHigh(r: int, j: int)
    requires 0 <= j < r < ALWAYS_OVERFLOWS && Least(r, j) <= Most(r, j)
    ensures r - j >= 715_827_883 && j <= 17_836
    ensures Least(r, j) >= INT_MAX - 2 * r
  {
    SidesOfRow(r, j);
    HighByBounds(r, j, j * r, j * j);
  }

  lemma SidesOfRow(r: int, j: int)
    requires 0 <= j < r
    ensures j * r >= j * j >= 0
  {
    assert j * (r - j) >= 0;
  }

  lemma ProductBounds(j: int, r: int, m: int)
    requires 0 <= j <= 17_836 && r >= 0 && m >= 715_827_883
    ensures j * r <= 17_836 * r && j * j >= 0
    ensures m * m >= 715_827_883 * m
  {
    assert (17_836 - j) * r >= 0;
    assert (m - 715_827_883) * m >= 0;
  }

  lemma FarByBounds(r: int, j: int, m: int, jr: int, jj: int, mm: int)
    requires 0 <= j && m == r - j && 715_827_883 <= m && r < ALWAYS_OVERFLOWS
    requires jr <= 17_836 * r && jj >= 0 && mm >= 715_827_883 * m
    ensures mm > m - 1 + 2 * jr - jj
  {
  }

  lemma RowIsFar(r: int, j: int)
    requires r < ALWAYS_OVERFLOWS && 0 <= j <= 17_836 && r - j >= 715_827_883
    ensures (r - j) * (r - j) > Most(r, j)
  {
    ProductBounds(j, r, r - j);
    FarByBounds(r, j, r - j, j * r, j * j, (r - j) * (r - j));
  }

  /** A window that holds a square belongs to a row near the top, and the square to a column between. */
  lemma WindowIsHigh(r: int, j: int, n: int)
    requires r < ALWAYS_OVERFLOWS && InWindow(r, j, n)
    ensures r - j >= 715_827_883 && 26_755 <= n < r - j
  {
    RowIsHigh(r, j);
    RowIsFar(r, j);
    hide Most, Least;
    if n <= 26_754 {
      SquareGrows(n, 26_754);
    }
    if n >= r - j {
      SquareGrows(r - j, n);
    }
  }
}
