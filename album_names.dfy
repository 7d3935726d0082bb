/**
  Album folder names. A cluster label `l` is published in the folder
  `Person_<l + 1>`, the number written in decimal as an f-string writes it.
 */
module AlbumNames {
  import opened Wrappers

  const ALBUM_PREFIX := "Person_"

  predicate IsDigit(c: char) {
    '0' <= c <= '9'
  }

  predicate AllDigits(s: string) {
    forall i :: 0 <= i < |s| ==> IsDigit(s[i])
  }

  function Digit(d: nat): char
    requires d < 10
  {
    ('0' as int + d) as char
  }

  /** The decimal rendering of a natural number, most significant digit first. */
  function Decimal(n: nat): (s: string)
    ensures |s| > 0 && AllDigits(s)
    ensures s[0] == '0' <==> n == 0
  {
    if n < 10 then [Digit(n)] else Decimal(n / 10) + [Digit(n % 10)]
  }

  /** The value of a string of decimal digits. */
  function DecimalValue(s: string): nat
    requires AllDigits(s)
  {
    if s == [] then 0
    else DecimalValue(s[..|s| - 1]) * 10 + (s[|s| - 1] as int - '0' as int)
  }

  /** Folder name for a cluster label: `Person_{clusterLabel + 1}`. */
  function AlbumName(clusterLabel: nat): (folder: string)
    ensures |folder| > |ALBUM_PREFIX| && folder[..|ALBUM_PREFIX|] == ALBUM_PREFIX
    ensures AllDigits(folder[|ALBUM_PREFIX|..]) && folder[|ALBUM_PREFIX|] != '0'
  {
    ALBUM_PREFIX + Decimal(clusterLabel + 1)
  }

  /** Reads the number back out of an album folder name, if it is one. */
  function AlbumNumber(folder: string): Option<nat> {
    var k := |ALBUM_PREFIX|;
    if |folder| > k && folder[..k] == ALBUM_PREFIX && AllDigits(folder[k..])
    then Some(DecimalValue(folder[k..]))
    else None
  }

  lemma {:induction false} DecimalRoundTrip(n: nat)
    ensures DecimalValue(Decimal(n)) == n
  {
    if n >= 10 {
      var s := Decimal(n);
      assert s[..|s| - 1] == Decimal(n / 10);
      DecimalRoundTrip(n / 10);
    }
  }

  /** The folder number of label `l` is `l + 1`, so it is always at least 1. */
  lemma AlbumNameRoundTrip(clusterLabel: nat)
    ensures AlbumNumber(AlbumName(clusterLabel)) == Some(clusterLabel + 1)
  {
    var name := AlbumName(clusterLabel);
    assert name[..|ALBUM_PREFIX|] == ALBUM_PREFIX;
    assert name[|ALBUM_PREFIX|..] == Decimal(clusterLabel + 1);
    DecimalRoundTrip(clusterLabel + 1);
  }

  /** Distinct labels are published in distinct folders. */
  lemma AlbumNameInjective(a: nat, b: nat)
    ensures AlbumName(a) == AlbumName(b) <==> a == b
  {
    AlbumNameRoundTrip(a);
    AlbumNameRoundTrip(b);
  }
}
