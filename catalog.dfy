/** The fixed sprite catalog of the watch face: the resource identifiers of the
    24 Kirby bitmaps, in the order in which they are rotated through. */
module Catalog {

  /** One bitmap resource of the application bundle. */
  datatype Resource =
    | KbyBackdrop | KbyBall | KbyBeam | KbyCrash | KbyCutter | KbyFire
    | KbyFireball | KbyFreeze | KbyHammer | KbyHijump | KbyIce | KbyLaser
    | KbyLight | KbyMike | KbyNeedle | KbyParasol | KbySleep | KbySpark
    | KbyStone | KbySword | KbyThrow | KbyTornado | KbyUfo | KbyWheel

  /** NUM_KIRBIES */
  const NumKirbies: nat := 24

  /** KIRBIES, in declaration order. */
  const Kirbies: seq<Resource> := [
    KbyBackdrop, KbyBall, KbyBeam, KbyCrash, KbyCutter, KbyFire,
    KbyFireball, KbyFreeze, KbyHammer, KbyHijump, KbyIce, KbyLaser,
    KbyLight, KbyMike, KbyNeedle, KbyParasol, KbySleep, KbySpark,
    KbyStone, KbySword, KbyThrow, KbyTornado, KbyUfo, KbyWheel
  ]

  /** Position of a resource in the catalog. */
  function IndexOf(r: Resource): (i: nat)
    ensures i < NumKirbies && |Kirbies| == NumKirbies && Kirbies[i] == r
  {
    match r
    case KbyBackdrop => 0  case KbyBall => 1      case KbyBeam => 2
    case KbyCrash => 3     case KbyCutter => 4    case KbyFire => 5
    case KbyFireball => 6  case KbyFreeze => 7    case KbyHammer => 8
    case KbyHijump => 9    case KbyIce => 10      case KbyLaser => 11
    case KbyLight => 12    case KbyMike => 13     case KbyNeedle => 14
    case KbyParasol => 15  case KbySleep => 16    case KbySpark => 17
    case KbyStone => 18    case KbySword => 19    case KbyThrow => 20
    case KbyTornado => 21  case KbyUfo => 22      case KbyWheel => 23
  }

  /** IndexOf undoes catalog lookup: reading position i and asking for the
      position of what is there gives i back. */
  lemma IndexOfAt(i: int)
    requires 0 <= i < NumKirbies
    ensures IndexOf(Kirbies[i]) == i
  {
    assert i == 0 || i == 1 || i == 2 || i == 3 || i == 4 || i == 5 || i == 6 || i == 7 || i == 8 || i == 9 || i == 10 || i == 11 || i == 12 || i == 13 || i == 14 || i == 15 || i == 16 || i == 17 || i == 18 || i == 19 || i == 20 || i == 21 || i == 22 || i == 23;
  }

  /** No element occurs at two positions. */
  predicate NoRepeats<T(==)>(s: seq<T>) {
    forall i, j :: 0 <= i < |s| && 0 <= j < |s| && s[i] == s[j] ==> i == j
  }

  /** Every Kirby resource occurs in the catalog, and no two catalog positions
      hold the same resource. */
  lemma CatalogIsBijection()
    ensures |Kirbies| == NumKirbies
    ensures forall r: Resource :: r in Kirbies
    ensures NoRepeats(Kirbies)
  {
    forall r: Resource ensures r in Kirbies {
      var k := IndexOf(r);
      assert Kirbies[k] == r;
    }
    forall i, j | 0 <= i < |Kirbies| && 0 <= j < |Kirbies| && Kirbies[i] == Kirbies[j] ensures i == j {
      IndexOfAt(i);
      IndexOfAt(j);
    }
  }

  /** In a sequence without repetitions, the element at each position occurs once. */
  lemma CountOnceAt<T>(s: seq<T>, k: int)
    requires 0 <= k < |s|
    requires NoRepeats(s)
    ensures multiset(s)[s[k]] == 1
  {
    assert s == s[..k] + [s[k]] + s[k+1..];
    assert s[k] !in s[..k] && s[k] !in s[k+1..];
  }

  /** Every Kirby resource occurs in the catalog exactly once. */
  lemma CatalogCountsOnce()
    ensures forall r: Resource :: multiset(Kirbies)[r] == 1
  {
    CatalogIsBijection();
    forall r: Resource ensures multiset(Kirbies)[r] == 1 {
      CountOnceAt(Kirbies, IndexOf(r));
    }
  }
}
