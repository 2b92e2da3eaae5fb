/** Commit ids and document names of the recovery gate, as text. */
module RecoveryNames {
  import opened Text

  // ----- ids -----

  function SeedId(round: nat, commit: nat): string {
    "round-" + (Padded(round, 3) + "-" + ("seed-" + Padded(commit, 3)))
  }

  function LiveId(round: nat, live: nat): string {
    "round-" + (Padded(round, 3) + "-" + ("live-" + Padded(live, 4)))
  }

  datatype Side = Left | Right

  const DOCUMENTS := "projects/demo-firenook-endurance-recovery/databases/(default)/documents/phase1_recovery/"

  function DocumentName(id: string, side: Side): string {
    DOCUMENTS + (id + (if side == Left then "-left" else "-right"))
  }

  lemma NoDash(n: nat, width: nat)
    ensures '-' !in Padded(n, width)
  {
  }

  lemma IdDecodes(r: nat, x: string, s: nat, y: string)
    requires "round-" + (Padded(r, 3) + "-" + x) == "round-" + (Padded(s, 3) + "-" + y)
    ensures r == s && x == y
  {
    Cancel("round-", Padded(r, 3) + "-" + x, "round-", Padded(s, 3) + "-" + y);
    NoDash(r, 3);
    NoDash(s, 3);
    SplitFirst(Padded(r, 3), x, Padded(s, 3), y, '-');
    PaddedInjective(r, s, 3);
  }

  lemma SeedIdInjective(r: nat, c: nat, s: nat, d: nat)
    requires SeedId(r, c) == SeedId(s, d)
    ensures r == s && c == d
  {
    IdDecodes(r, "seed-" + Padded(c, 3), s, "seed-" + Padded(d, 3));
    Cancel("seed-", Padded(c, 3), "seed-", Padded(d, 3));
    PaddedInjective(c, d, 3);
  }

  lemma LiveIdInjective(r: nat, c: nat, s: nat, d: nat)
    requires LiveId(r, c) == LiveId(s, d)
    ensures r == s && c == d
  {
    IdDecodes(r, "live-" + Padded(c, 4), s, "live-" + Padded(d, 4));
    Cancel("live-", Padded(c, 4), "live-", Padded(d, 4));
    PaddedInjective(c, d, 4);
  }

  lemma SeedIsNotLive(r: nat, c: nat, s: nat, d: nat)
    ensures SeedId(r, c) != LiveId(s, d)
  {
    var x, y := "seed-" + Padded(c, 3), "live-" + Padded(d, 4);
    assert x[0] == 's' && y[0] == 'l';
    if SeedId(r, c) == LiveId(s, d) {
      IdDecodes(r, x, s, y);
    }
  }

  /** Two sides of two commits never share a document. */
  lemma DocumentNameInjective(a: string, s: Side, b: string, t: Side)
    requires DocumentName(a, s) == DocumentName(b, t)
    ensures a == b && s == t
  {
    var x, y := if s == Left then "-left" else "-right", if t == Left then "-left" else "-right";
    Cancel(DOCUMENTS, a + x, DOCUMENTS, b + y);
    assert x[1..] == (if s == Left then "left" else "right") && y[1..] == (if t == Left then "left" else "right");
    SplitSuffix(a, s, b, t);
  }

  lemma SplitSuffix(a: string, s: Side, b: string, t: Side)
    requires a + (if s == Left then "-left" else "-right") == b + (if t == Left then "-left" else "-right")
    ensures a == b && s == t
  {
    var u := a + (if s == Left then "-left" else "-right");
    assert u[|u| - 2] == (if s == Left then 'f' else 'h');
    assert u[|u| - 2] == (if t == Left then 'f' else 'h');
    var x := if s == Left then "-left" else "-right";
    assert |a| == |u| - |x| == |b|;
    Cancel(a, x, b, x);
  }

  // ----- the marker of a completed round -----

  const MARKER := "-seed-000"

  /** A dash in an id is followed by the round, the kind or the commit number. */
  lemma DashFollowedByLetter(r: nat, kind: string, tail: string, i: nat)
    requires |kind| == 4 && '-' !in kind && '-' !in tail && tail != "" && IsDigit(tail[0])
    requires var id := "round-" + (Padded(r, 3) + "-" + (kind + "-" + tail));
      i + 1 < |id| && id[i] == '-' && id[i + 1] == 's'
    ensures i == 6 + |Padded(r, 3)| && kind[0] == 's'
  {
    var p := Padded(r, 3);
    NoDash(r, 3);
    var id := "round-" + (p + "-" + (kind + "-" + tail));
    assert id == "round-" + p + "-" + kind + "-" + tail;
    var k := 6 + |p|;
    assert id[5] == '-' && id[6] == p[0];
    assert forall j :: 6 <= j < k ==> id[j] == p[j - 6] && id[j] in p;
    assert id[k] == '-' && id[k + 1] == kind[0];
    assert forall j :: k < j < k + 5 ==> id[j] == kind[j - k - 1] && id[j] in kind;
    assert id[k + 5] == '-' && id[k + 6] == tail[0];
    assert forall j :: k + 5 < j < |id| ==> id[j] == tail[j - k - 6] && id[j] in tail;
  }

  lemma SeedIdShape(r: nat, c: nat)
    ensures SeedId(r, c) == "round-" + (Padded(r, 3) + "-" + ("seed" + "-" + Padded(c, 3)))
  {
    assert "seed" + "-" == "seed-";
  }

  lemma LiveIdShape(r: nat, c: nat)
    ensures LiveId(r, c) == "round-" + (Padded(r, 3) + "-" + ("live" + "-" + Padded(c, 4)))
  {
    assert "live" + "-" == "live-";
  }

  lemma LiveLacksMarker(r: nat, l: nat)
    ensures !Occurs(LiveId(r, l), MARKER)
  {
    var id := LiveId(r, l);
    LiveIdShape(r, l);
    NoDash(l, 4);
    if i: nat :| i <= |id| && StartsWith(id[i..], MARKER) {
      MarkerStart(id, i);
      DashFollowedByLetter(r, "live", Padded(l, 4), i);
    }
  }

  lemma MarkerStart(id: string, i: nat)
    requires i <= |id| && StartsWith(id[i..], MARKER)
    ensures i + 9 <= |id| && id[i] == '-' && id[i + 1] == 's' && id[i + 6..i + 9] == "000"
  {
    var part := id[i..][..9];
    assert part[0] == id[i] && part[1] == id[i + 1] && part[6..9] == id[i + 6..i + 9];
    assert MARKER[6..9] == "000";
  }

  lemma SeedMarkerAt(r: nat, c: nat)
    ensures var id, k := SeedId(r, c), 6 + |Padded(r, 3)|;
      k + 6 + |Padded(c, 3)| == |id| && id[k..k + 6] == "-seed-" && id[k + 6..] == Padded(c, 3)
  {
    var p, q := Padded(r, 3), Padded(c, 3);
    assert SeedId(r, c) == ("round-" + p) + ("-seed-" + q);
  }

  lemma MarkerStands(id: string, k: nat)
    requires k + 9 == |id| && id[k..k + 6] == "-seed-" && id[k + 6..] == "000"
    ensures StartsWith(id[k..], MARKER)
  {
    assert id[k..][..9] == id[k..k + 6] + id[k + 6..];
  }

  /** Exactly the first seed commit of a round carries the marker. */
  lemma SeedMarkerIff(r: nat, c: nat)
    ensures Occurs(SeedId(r, c), MARKER) <==> c == 0
  {
    var id, k := SeedId(r, c), 6 + |Padded(r, 3)|;
    var q := Padded(c, 3);
    SeedMarkerAt(r, c);
    PaddedEnds(c, 3);
    if c == 0 {
      assert Decimal(0) == "0" && q[2..][0] == '0';
      assert q == "000";
      MarkerStands(id, k);
    } else {
      PaddedNotZeros(c);
      SeedIdShape(r, c);
      NoDash(c, 3);
      assert q[..3] == id[k + 6..k + 9];
      if i: nat :| i <= |id| && StartsWith(id[i..], MARKER) {
        MarkerStart(id, i);
        DashFollowedByLetter(r, "seed", q, i);
      }
    }
  }

  lemma PaddedNotZeros(c: nat)
    requires c > 0
    ensures |Padded(c, 3)| >= 3 && Padded(c, 3)[..3] != "000"
  {
    var d, p := Decimal(c), Padded(c, 3);
    PaddedEnds(c, 3);
    assert p[|p| - |d|] == p[|p| - |d|..][0] == d[0] != '0';
    if |d| <= 3 {
      assert p[..3][|p| - |d|] != '0';
    } else {
      assert p[..3][0] != '0';
    }
  }
}
