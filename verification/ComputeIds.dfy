/**
 The generated `compute_id` column (kloigos/resources/database/ddl.sql) and the storage mount path
 (kloigos/workers/remote/allocation.py) both end in the unit's ordinal, padded in different ways.
 */
module ComputeIds {
  import opened Text

  /** PostgreSQL's `lpad(text, 2, '0')`, which truncates a longer text. */
  function Lpad2(text: string): string {
    if |text| >= 2 then text[..2] else if |text| == 1 then "0" + text else "00"
  }

  function ComputeId(hostname: string, ordinal: nat): string {
    hostname + "-cu" + Lpad2(Decimal(ordinal))
  }

  /** Python's `f"{n:02d}"`, which never truncates. */
  function TwoDigits(n: nat): string {
    if n < 10 then "0" + Decimal(n) else Decimal(n)
  }

  function StorageMountPath(hostname: string, ordinal: nat): string {
    "/mnt/kloigos/" + hostname + "/cu" + TwoDigits(ordinal)
  }

  /** The number that the first two decimal digits form. */
  function Leading(ordinal: nat): (n: nat)
    ensures n < 100
  {
    if ordinal < 100 then ordinal else Leading(ordinal / 10)
  }

  lemma {:induction false} DecimalLength(n: nat)
    ensures |Decimal(n)| == 1 <==> n < 10
    ensures |Decimal(n)| == 2 <==> 10 <= n < 100
  {
    if n >= 10 {
      DecimalLength(n / 10);
    }
  }

  lemma {:induction false} PaddingKeepsLeading(ordinal: nat)
    ensures Lpad2(Decimal(ordinal)) == TwoDigits(Leading(ordinal))
  {
    DecimalLength(ordinal);
    if ordinal >= 100 {
      PaddingKeepsLeading(ordinal / 10);
      DecimalLength(ordinal / 10);
      assert Decimal(ordinal)[..2] == Decimal(ordinal / 10)[..2];
    } else if ordinal >= 10 {
      assert Decimal(ordinal)[..2] == Decimal(ordinal);
    }
  }

  lemma TwoDigitsInjective(m: nat, n: nat)
    requires m < 100 && n < 100 && TwoDigits(m) == TwoDigits(n)
    ensures m == n
  {
    DecimalLength(m);
    DecimalLength(n);
    ReadDigitsDecimal(m);
    ReadDigitsDecimal(n);
    assert m < 10 ==> TwoDigits(m)[0] == '0' && TwoDigits(m)[1..] == Decimal(m);
    assert n < 10 ==> TwoDigits(n)[0] == '0' && TwoDigits(n)[1..] == Decimal(n);
    assert m >= 10 ==> Decimal(m) == [Digit(m / 10)] + [Digit(m % 10)];
    assert n >= 10 ==> Decimal(n) == [Digit(n / 10)] + [Digit(n % 10)];
  }

  /**
   Exactly when two units share a generated id: same host, and ordinals with the same two leading
   digits. Any two hostnames, however they end, stay apart.
   */
  lemma ComputeIdCollision(h1: string, o1: nat, h2: string, o2: nat)
    ensures ComputeId(h1, o1) == ComputeId(h2, o2) <==> h1 == h2 && Leading(o1) == Leading(o2)
  {
    PaddingKeepsLeading(o1);
    PaddingKeepsLeading(o2);
    DecimalLength(Leading(o1));
    DecimalLength(Leading(o2));
    var t1, t2 := TwoDigits(Leading(o1)), TwoDigits(Leading(o2));
    assert |t1| == 2 && |t2| == 2;
    var id1, id2 := ComputeId(h1, o1), ComputeId(h2, o2);
    if id1 == id2 {
      assert id1[..|id1| - 5] == h1 && id2[..|id2| - 5] == h2;
      assert id1[|id1| - 2..] == t1 && id2[|id2| - 2..] == t2;
      TwoDigitsInjective(Leading(o1), Leading(o2));
    }
  }

  /** Ordinals 0 to 99 never collide; 100 is the first that does. */
  lemma ComputeIdInjectiveBelow100(h1: string, o1: nat, h2: string, o2: nat)
    requires o1 < 100 && o2 < 100
    ensures ComputeId(h1, o1) == ComputeId(h2, o2) <==> h1 == h2 && o1 == o2
    ensures ComputeId(h1, 100) == ComputeId(h1, 10)
  {
    ComputeIdCollision(h1, o1, h2, o2);
    ComputeIdCollision(h1, 100, h1, 10);
    assert Leading(100) == Leading(10);
  }

  /** The id and the mount path name the unit by the same suffix exactly below ordinal 100. */
  lemma MountPathMatchesId(hostname: string, ordinal: nat)
    ensures TwoDigits(ordinal) == Lpad2(Decimal(ordinal)) <==> ordinal < 100
    ensures ordinal < 100 ==>
              && ComputeId(hostname, ordinal) == hostname + "-cu" + TwoDigits(ordinal)
              && StorageMountPath(hostname, ordinal) == "/mnt/kloigos/" + hostname + "/cu" + TwoDigits(ordinal)
  {
    PaddingKeepsLeading(ordinal);
    DecimalLength(ordinal);
  }

  /**
   Below 100 the suffix of both names is the ordinal in two digits; from 100 on the mount path carries
   the ordinal in full.
   */
  lemma SuffixIsOrdinal(hostname: string, ordinal: nat)
    ensures ordinal < 100 ==>
              exists tens, ones :: 0 <= tens < 10 && 0 <= ones < 10 && ordinal == 10 * tens + ones
                && ComputeId(hostname, ordinal) == hostname + "-cu" + ["0123456789"[tens], "0123456789"[ones]]
                && StorageMountPath(hostname, ordinal)
                   == "/mnt/kloigos/" + hostname + "/cu" + ["0123456789"[tens], "0123456789"[ones]]
    ensures ordinal >= 100 ==>
              StorageMountPath(hostname, ordinal) == "/mnt/kloigos/" + hostname + "/cu" + Decimal(ordinal)
  {
    if ordinal < 100 {
      var tens, ones := ordinal / 10, ordinal % 10;
      DecimalLength(ordinal);
      var suffix := ["0123456789"[tens], "0123456789"[ones]];
      assert Lpad2(Decimal(ordinal)) == suffix && TwoDigits(ordinal) == suffix;
      assert ordinal == 10 * tens + ones;
    }
  }
}
