/** Object names in the `e_comm_de` bucket: the prefix the sensor watches, the
    `.json` objects the loader reads, and the renaming that `archive_files`
    applies. The bucket is modelled as its set of object names. */
module Archive {

  const ORDER_PREFIX: string := "landing/orders/"
  const LANDING: string := "landing/"
  const JSON_SUFFIX: string := ".json"
  const ARCHIVE: string := "archive/"

  predicate StartsWith(s: string, p: string) {
    |p| <= |s| && s[..|p|] == p
  }

  predicate EndsWith(s: string, x: string) {
    |x| <= |s| && s[|s| - |x|..] == x
  }

  /** The sensor's condition: some object name starts with the watched prefix. */
  predicate SensorFires(bucket: set<string>) {
    exists n :: n in bucket && StartsWith(n, ORDER_PREFIX)
  }

  /** Python's `s.replace('landing/', rep)`: every non-overlapping occurrence, scanning left to
      right, is replaced. */
  function ReplaceLanding(s: string, rep: string): string
    decreases |s|
  {
    if |s| < |LANDING| then s
    else if s[..|LANDING|] == LANDING then rep + ReplaceLanding(s[|LANDING|..], rep)
    else [s[0]] + ReplaceLanding(s[1..], rep)
  }

  /** `'archive/' + timestamp + '/'`. */
  function ArchivePrefix(stamp: string): string {
    ARCHIVE + stamp + "/"
  }

  /** `blob.name.replace('landing/', f'archive/{timestamp}/')`. */
  function ArchiveName(name: string, stamp: string): string {
    ReplaceLanding(name, ArchivePrefix(stamp))
  }

  /** `bucket.list_blobs(prefix='landing/orders/')`, as a set of names. */
  function Listed(bucket: set<string>): set<string> {
    set n | n in bucket && StartsWith(n, ORDER_PREFIX)
  }

  /** The listed names that pass `endswith('.json')`. */
  function ToArchive(bucket: set<string>): set<string> {
    set n | n in Listed(bucket) && EndsWith(n, JSON_SUFFIX)
  }

  /** The bucket after the objects `done` have been renamed to their archive names. */
  function Renamed(bucket: set<string>, done: set<string>, stamp: string): set<string> {
    (bucket - done) + set n | n in done :: ArchiveName(n, stamp)
  }

  /** The bucket after every listed `.json` object has been renamed. */
  function Archived(bucket: set<string>, stamp: string): set<string> {
    Renamed(bucket, ToArchive(bucket), stamp)
  }

  /** A name that starts with `landing/` is renamed to one that starts with the replacement. */
  lemma ReplaceLandingLeading(s: string, rep: string)
    requires StartsWith(s, LANDING)
    ensures StartsWith(ReplaceLanding(s, rep), rep)
  {
    var t := ReplaceLanding(s[|LANDING|..], rep);
    assert ReplaceLanding(s, rep) == rep + t;
    assert (rep + t)[..|rep|] == rep;
  }

  /** Every listed name is renamed into the archive namespace, so it leaves the watched prefix. */
  lemma ArchiveNameLeavesPrefix(name: string, stamp: string)
    requires StartsWith(name, ORDER_PREFIX)
    ensures StartsWith(ArchiveName(name, stamp), ARCHIVE)
    ensures !StartsWith(ArchiveName(name, stamp), ORDER_PREFIX)
  {
    assert name[..|LANDING|] == name[..|ORDER_PREFIX|][..|LANDING|];
    ReplaceLandingLeading(name, ArchivePrefix(stamp));
    var r := ArchiveName(name, stamp);
    assert r[..|ArchivePrefix(stamp)|] == ArchivePrefix(stamp);
    assert r[0] == 'a' && ORDER_PREFIX[0] == 'l';
  }

  /** A text without the letter `l` holds no `landing/`, and is kept as it is (before whatever
      follows it). */
  lemma {:induction false} ReplaceLandingSkips(p: string, t: string, rep: string)
    requires 'l' !in p
    ensures ReplaceLanding(p + t, rep) == p + ReplaceLanding(t, rep)
  {
    if p != [] {
      var s := p + t;
      assert s[0] == p[0];
      assert s[1..] == p[1..] + t;
      if |s| >= |LANDING| {
        assert s[..|LANDING|] != LANDING by { assert s[0] != 'l'; }
      }
      ReplaceLandingSkips(p[1..], t, rep);
    } else {
      assert p + t == t;
    }
  }

  lemma ReplaceLandingAfterLanding(t: string, rep: string)
    ensures ReplaceLanding(LANDING + t, rep) == rep + ReplaceLanding(t, rep)
  {
    assert (LANDING + t)[..|LANDING|] == LANDING;
    assert (LANDING + t)[|LANDING|..] == t;
  }

  lemma ArchivePrefixHasNoL(stamp: string)
    requires 'l' !in stamp
    ensures 'l' !in ArchivePrefix(stamp)
  {
    var a := ArchivePrefix(stamp);
    assert a == ARCHIVE + stamp + "/";
    assert 'l' !in ARCHIVE;
  }

  /** With `p`, `x` and the replacement free of `l`, a second `landing/` and a literal copy of
      the replacement in the same place are renamed alike. */
  lemma {:induction false} SecondLandingCollides(p: string, x: string, a: string)
    requires 'l' !in p && 'l' !in x && 'l' !in a
    ensures ReplaceLanding(LANDING + p + LANDING + x, a) == a + p + a + x
    ensures ReplaceLanding(LANDING + p + a + x, a) == a + p + a + x
  {
    ReplaceLandingSkips(x, [], a);
    assert x + [] == x;
    ReplaceLandingAfterLanding(x, a);
    ReplaceLandingSkips(p, LANDING + x, a);
    assert LANDING + p + LANDING + x == LANDING + (p + (LANDING + x));
    ReplaceLandingAfterLanding(p + (LANDING + x), a);
    assert 'l' !in p + a + x;
    ReplaceLandingSkips(p + a + x, [], a);
    assert p + a + x + [] == p + a + x;
    assert LANDING + p + a + x == LANDING + (p + a + x);
    ReplaceLandingAfterLanding(p + a + x, a);
  }

  /** Because every occurrence of `landing/` is replaced, two different `.json` names can be
      archived under one name, and the later rename then replaces the earlier object. */
  lemma ArchiveNamesCanCollide(stamp: string)
    requires 'l' !in stamp
    ensures var n1, n2 := ORDER_PREFIX + LANDING + "a.json", ORDER_PREFIX + ArchivePrefix(stamp) + "a.json";
            && n1 != n2
            && StartsWith(n1, ORDER_PREFIX) && EndsWith(n1, JSON_SUFFIX)
            && StartsWith(n2, ORDER_PREFIX) && EndsWith(n2, JSON_SUFFIX)
            && ArchiveName(n1, stamp) == ArchiveName(n2, stamp)
  {
    var a := ArchivePrefix(stamp);
    var n1, n2 := ORDER_PREFIX + LANDING + "a.json", ORDER_PREFIX + a + "a.json";
    assert n1[|ORDER_PREFIX|] == 'l' && n2[|ORDER_PREFIX|] == 'a';
    assert n1[..|ORDER_PREFIX|] == ORDER_PREFIX && n2[..|ORDER_PREFIX|] == ORDER_PREFIX;
    assert n1[|n1| - 5..] == JSON_SUFFIX && n2[|n2| - 5..] == JSON_SUFFIX;
    ArchivePrefixHasNoL(stamp);
    var p, x := "orders/", "a.json";
    assert 'l' !in p && 'l' !in x;
    assert ORDER_PREFIX == LANDING + p;
    SecondLandingCollides(p, x, a);
  }

  /** One more `rename_blob` of a listed object that has not been renamed yet: its old name
      leaves the bucket and its archive name enters it. */
  lemma RenameOneMore(bucket: set<string>, done: set<string>, blob: string, stamp: string)
    requires done <= Listed(bucket) && blob in Listed(bucket) && blob !in done
    ensures Renamed(bucket, done + {blob}, stamp) == Renamed(bucket, done, stamp) - {blob} + {ArchiveName(blob, stamp)}
  {
    forall n | n in done ensures ArchiveName(n, stamp) != blob {
      ArchiveNameLeavesPrefix(n, stamp);
    }
  }

  /** After archiving, no `.json` object is left under the watched prefix. */
  lemma ArchivedLeavesNoJson(bucket: set<string>, stamp: string)
    ensures forall n :: n in Archived(bucket, stamp) && StartsWith(n, ORDER_PREFIX) ==> !EndsWith(n, JSON_SUFFIX)
  {
    forall n | n in ToArchive(bucket) ensures !StartsWith(ArchiveName(n, stamp), ORDER_PREFIX) {
      ArchiveNameLeavesPrefix(n, stamp);
    }
  }

  /** Each listed `.json` object is moved: its old name is gone and its archive name is present;
      every other object stays where it is. */
  lemma ArchivedMovesEach(bucket: set<string>, stamp: string)
    ensures forall n :: n in ToArchive(bucket) ==> n !in Archived(bucket, stamp) && ArchiveName(n, stamp) in Archived(bucket, stamp)
    ensures forall n :: n in bucket && n !in ToArchive(bucket) ==> n in Archived(bucket, stamp)
  {
    ArchivedLeavesNoJson(bucket, stamp);
  }

  /** A second archiver run, with any timestamp, finds nothing to move. */
  lemma ArchiveAgainMovesNothing(bucket: set<string>, first: string, second: string)
    ensures ToArchive(Archived(bucket, first)) == {}
    ensures Archived(Archived(bucket, first), second) == Archived(bucket, first)
  {
    ArchivedLeavesNoJson(bucket, first);
  }
}
