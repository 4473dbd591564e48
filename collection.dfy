/**
 * Collection of the output directory in `execute_code`: the listing is sorted
 * by name, and every regular file strictly smaller than MAX_FILE_BYTES becomes
 * `{name, data: base64, size}` in that order.  The directory is an input: not a
 * directory any more, a directory that cannot be listed, or its listing after
 * the run.
 */
module Collection {
  import opened Wrappers
  import opened Config
  import opened PyStr
  import opened Base64

  /** One name returned by `os.listdir`: whether `os.path.isfile` holds of it,
      its bytes (their count is `os.path.getsize`), and whether opening and
      reading it succeeds. */
  datatype Entry = Entry(name: string, isFile: bool, content: seq<byte>, readable: bool)

  /** The output path after the run: not a directory (the child removed or
      replaced it), a directory `os.listdir` cannot read (its permissions were
      taken away, say), or a directory with these entries. */
  datatype OutputDir = NotADirectory | Unlistable | Listing(entries: seq<Entry>)

  /** The exception that escapes the collection loop. */
  datatype CollectError = ListingFailed | ReadFailed(name: string)

  /** One member of the result's `files` list. */
  datatype FileRecord = FileRecord(name: string, data: string, size: nat)

  /** The test at the head of the loop body. */
  predicate Kept(e: Entry) {
    e.isFile && |e.content| < MAX_FILE_BYTES
  }

  function RecordOf(e: Entry): FileRecord {
    FileRecord(e.name, Encode(e.content), |e.content|)
  }

  /** Each record carries the size of the file and base64 text that decodes to its bytes. */
  lemma RecordRoundTrip(e: Entry)
    ensures RecordOf(e).name == e.name && RecordOf(e).size == |e.content|
    ensures Decode(RecordOf(e).data) == Some(e.content)
  {
    DecodeEncode(e.content);
  }

  // ---- sorted(os.listdir(...)) ----

  predicate SortedByName(s: seq<Entry>) {
    forall i, j :: 0 <= i < j < |s| ==> !Less(s[j].name, s[i].name)
  }

  predicate StrictlyAscending(s: seq<Entry>) {
    forall i, j :: 0 <= i < j < |s| ==> Less(s[i].name, s[j].name)
  }

  /** What `os.listdir` promises: no name twice. */
  predicate DistinctNames(s: seq<Entry>) {
    forall i, j :: 0 <= i < j < |s| ==> s[i].name != s[j].name
  }

  function Insert(e: Entry, s: seq<Entry>): (r: seq<Entry>)
    ensures multiset(r) == multiset(s) + multiset{e}
    ensures forall x :: x in r <==> x == e || x in s
  {
    if s == [] then [e]
    else if Less(s[0].name, e.name) then
      assert s == [s[0]] + s[1..];
      [s[0]] + Insert(e, s[1..])
    else [e] + s
  }

  lemma {:induction false} InsertSorted(e: Entry, s: seq<Entry>)
    requires SortedByName(s)
    ensures SortedByName(Insert(e, s))
  {
    if s != [] {
      if Less(s[0].name, e.name) {
        InsertSorted(e, s[1..]);
        var r := Insert(e, s);
        forall j | 0 < j < |r| ensures !Less(r[j].name, s[0].name) {
          assert r[j] in Insert(e, s[1..]);
          if r[j] == e {
            LessAsymmetric(s[0].name, e.name);
          } else {
            var k :| 0 <= k < |s[1..]| && s[1..][k] == r[j];
            assert s[k + 1] == r[j];
          }
        }
      } else {
        var r := Insert(e, s);
        forall j | 0 < j < |r| ensures !Less(r[j].name, e.name) {
          assert r[j] == s[j - 1];
          if j == 1 {
            LessIrreflexive(s[0].name);
          }
          NotLessTransitive(e.name, s[0].name, s[j - 1].name);
        }
      }
    }
  }

  /** Python's `sorted` on the names (insertion sort; stable, although with
      distinct names that does not matter). */
  function SortByName(s: seq<Entry>): (r: seq<Entry>)
    ensures multiset(r) == multiset(s)
    ensures forall x :: x in r <==> x in s
    ensures SortedByName(r)
  {
    if s == [] then []
    else
      assert s == [s[0]] + s[1..];
      var rest := SortByName(s[1..]);
      InsertSorted(s[0], rest);
      Insert(s[0], rest)
  }

  lemma {:induction false} InsertStrict(e: Entry, s: seq<Entry>)
    requires StrictlyAscending(s)
    requires forall x :: x in s ==> x.name != e.name
    ensures StrictlyAscending(Insert(e, s))
  {
    if s != [] {
      if Less(s[0].name, e.name) {
        InsertStrict(e, s[1..]);
        var r := Insert(e, s);
        forall j | 0 < j < |r| ensures Less(s[0].name, r[j].name) {
          assert r[j] in Insert(e, s[1..]);
          if r[j] != e {
            var k :| 0 <= k < |s[1..]| && s[1..][k] == r[j];
            assert s[k + 1] == r[j];
          }
        }
      } else {
        var r := Insert(e, s);
        assert s[0] in s;
        LessTotal(s[0].name, e.name);
        forall j | 0 < j < |r| ensures Less(e.name, r[j].name) {
          assert r[j] == s[j - 1];
          if j > 1 {
            LessTransitive(e.name, s[0].name, s[j - 1].name);
          }
        }
      }
    }
  }

  /** With the distinct names of a directory listing, the sorted names are strictly ascending. */
  lemma {:induction false} SortStrict(s: seq<Entry>)
    requires DistinctNames(s)
    ensures StrictlyAscending(SortByName(s))
  {
    if s != [] {
      var rest := SortByName(s[1..]);
      SortStrict(s[1..]);
      forall x | x in rest ensures x.name != s[0].name {
        var k :| 0 <= k < |s[1..]| && s[1..][k] == x;
        assert s[k + 1] == x;
      }
      InsertStrict(s[0], rest);
    }
  }

  // ---- the loop over the sorted listing ----

  /** The loop over a listing already in order: the records of the kept
      entries, or the name of the first kept entry whose read raises.  Defined
      from the end, one iteration at a time. */
  function CollectSpec(s: seq<Entry>): (r: Result<seq<FileRecord>, CollectError>)
    ensures r.Success? ==> |r.value| <= |s|
    ensures r.Failure? ==>
      r.error.ReadFailed? && exists i :: 0 <= i < |s| && s[i].name == r.error.name && Kept(s[i]) && !s[i].readable
  {
    if s == [] then Success([])
    else
      var init := CollectSpec(s[..|s| - 1]);
      var e := s[|s| - 1];
      if init.Failure? || !Kept(e) then init
      else if !e.readable then Failure(ReadFailed(e.name))
      else Success(init.value + [RecordOf(e)])
  }

  /** Lines 122-129: no files when the output path is not a directory, the
      exception of `os.listdir` when it cannot be read. */
  function Collected(d: OutputDir): (r: Result<seq<FileRecord>, CollectError>)
    ensures d.NotADirectory? ==> r == Success([])
    ensures r == Failure(ListingFailed) <==> d.Unlistable?
  {
    match d
    case NotADirectory => Success([])
    case Unlistable => Failure(ListingFailed)
    case Listing(l) => CollectSpec(SortByName(l))
  }

  lemma {:induction false} FailureSticks(s: seq<Entry>, k: nat)
    requires k <= |s| && CollectSpec(s[..k]).Failure?
    ensures CollectSpec(s) == CollectSpec(s[..k])
    decreases |s| - k
  {
    if k < |s| {
      assert s[..k + 1][..k] == s[..k];
      FailureSticks(s, k + 1);
    } else {
      assert s[..k] == s;
    }
  }

  /** One iteration of the loop: how the collection of a prefix grows by one entry. */
  lemma CollectStep(s: seq<Entry>, i: nat)
    requires i < |s|
    ensures var init := CollectSpec(s[..i]);
      CollectSpec(s[..i + 1]) ==
        if init.Failure? || !Kept(s[i]) then init
        else if !s[i].readable then Failure(ReadFailed(s[i].name))
        else Success(init.value + [RecordOf(s[i])])
  {
    assert s[..i + 1][..i] == s[..i];
  }

  /** The loop of lines 122-129, appending to `files` in place. */
  method CollectFiles(d: OutputDir) returns (r: Result<seq<FileRecord>, CollectError>)
    ensures r == Collected(d)
  {
    var files: seq<FileRecord> := [];
    if d.NotADirectory? {
      return Success(files);
    }
    if d.Unlistable? {
      return Failure(ListingFailed);
    }
    var sorted := SortByName(d.entries);
    var i := 0;
    while i < |sorted|
      invariant 0 <= i <= |sorted|
      invariant CollectSpec(sorted[..i]) == Success(files)
    {
      var e := sorted[i];
      CollectStep(sorted, i);
      if e.isFile && |e.content| < 5 * 1024 * 1024 {
        if !e.readable {
          FailureSticks(sorted, i + 1);
          return Failure(ReadFailed(e.name));
        }
        var data := Encode(e.content);
        files := files + [FileRecord(e.name, data, |e.content|)];
      }
      i := i + 1;
    }
    assert sorted[..i] == sorted;
    r := Success(files);
  }

  // ---- what the collected list is ----

  /** Every record belongs to a kept entry, and every kept entry has its record. */
  lemma {:induction false} CollectSpecMembers(s: seq<Entry>)
    requires CollectSpec(s).Success?
    ensures forall f :: f in CollectSpec(s).value <==> exists e :: e in s && Kept(e) && f == RecordOf(e)
    ensures forall e :: e in s && Kept(e) ==> e.readable
  {
    if s != [] {
      var p := s[..|s| - 1];
      var last := s[|s| - 1];
      assert s == p + [last];
      CollectSpecMembers(p);
      forall e | e in s && Kept(e) && e != last ensures e in p {
      }
    }
  }

  lemma {:induction false} CollectSpecUnder(s: seq<Entry>, bound: string)
    requires CollectSpec(s).Success?
    requires forall i :: 0 <= i < |s| ==> Less(s[i].name, bound)
    ensures forall k :: 0 <= k < |CollectSpec(s).value| ==> Less(CollectSpec(s).value[k].name, bound)
  {
    if s != [] {
      CollectSpecUnder(s[..|s| - 1], bound);
    }
  }

  lemma {:induction false} CollectSpecAscending(s: seq<Entry>)
    requires CollectSpec(s).Success? && StrictlyAscending(s)
    ensures var fs := CollectSpec(s).value;
      forall i, j :: 0 <= i < j < |fs| ==> Less(fs[i].name, fs[j].name)
  {
    if s != [] {
      var p := s[..|s| - 1];
      CollectSpecAscending(p);
      if CollectSpec(p).Success? {
        CollectSpecUnder(p, s[|s| - 1].name);
      }
    }
  }

  /** A read fails exactly when some kept entry cannot be read. */
  lemma {:induction false} CollectSpecFails(s: seq<Entry>)
    ensures CollectSpec(s).Failure? <==> exists e :: e in s && Kept(e) && !e.readable
  {
    if s != [] {
      var p := s[..|s| - 1];
      assert s == p + [s[|s| - 1]];
      CollectSpecFails(p);
    }
  }

  /** The collected files: names strictly ascending; each record is a kept
      entry of the listing (a regular file under 5 MiB); every such entry is
      there; and every entry that is not a regular file or is at least 5 MiB
      has no record under its name. */
  lemma CollectedFiles(l: seq<Entry>)
    requires DistinctNames(l)
    requires Collected(Listing(l)).Success?
    ensures var fs := Collected(Listing(l)).value;
      && (forall i, j :: 0 <= i < j < |fs| ==> Less(fs[i].name, fs[j].name))
      && (forall f :: f in fs <==> exists e :: e in l && Kept(e) && f == RecordOf(e))
      && (forall e :: e in l && !Kept(e) ==> forall f :: f in fs ==> f.name != e.name)
  {
    var sorted := SortByName(l);
    var fs := Collected(Listing(l)).value;
    SortStrict(l);
    CollectSpecAscending(sorted);
    CollectSpecMembers(sorted);
    forall e, f | e in l && !Kept(e) && f in fs ensures f.name != e.name {
      var e' :| e' in sorted && Kept(e') && f == RecordOf(e');
      var i :| 0 <= i < |l| && l[i] == e;
      var j :| 0 <= j < |l| && l[j] == e';
      if i != j {
        assert l[if i < j then i else j].name != l[if i < j then j else i].name;
      }
    }
  }

  /** Collection fails exactly when a kept entry of the listing cannot be read. */
  lemma CollectedFails(l: seq<Entry>)
    ensures Collected(Listing(l)).Failure? <==> exists e :: e in l && Kept(e) && !e.readable
  {
    CollectSpecFails(SortByName(l));
  }
}
