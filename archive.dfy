/**
 * `readtar`: the choice of decoder by file extension and the loop over the
 * entries of the archive, each regular entry scanned by `scanlines` on the
 * same writer.  Decompression and tar parsing are not modelled: an archive
 * is the sequence of its already-decoded entries.
 */
module Archive {
  import opened Wrappers
  import opened Text
  import opened Records
  import opened Ingest
  import opened Batching

  /** The three decoders `readtar` can put in front of `tar.NewReader`. */
  datatype Format = Plain | Gzip | Xz

  /** A decoded tar entry: its header name, whether it is a directory, and its text. */
  datatype Entry = Entry(name: string, isDir: bool, content: string)
  {
    /** The lines `scanlines` reads from the entry, each with its '\n'. */
    function Lines(): seq<string>
    {
      SplitLines(content).0
    }
  }

  /** "Extension not recognized" followed by `os.Exit(-1)`. */
  datatype ArchiveError = ExtensionNotRecognized(ext: string)
  {
    /** The status passed to `os.Exit`. */
    function ExitStatus(): (c: int)
      ensures c < 0
    {
      -1
    }
  }

  /** The switch on `filepath.Ext` of the archive's path. */
  function FormatOf(path: string): (r: Result<Format, ArchiveError>)
    ensures r == Ok(Plain) <==> Ext(path) == ".tar"
    ensures r == Ok(Gzip) <==> Ext(path) == ".gz"
    ensures r == Ok(Xz) <==> Ext(path) == ".xz"
    ensures r.Err? ==> r.error == ExtensionNotRecognized(Ext(path))
  {
    match Ext(path)
    case ".tar" => Ok(Plain)
    case ".gz" => Ok(Gzip)
    case ".xz" => Ok(Xz)
    case ext => Err(ExtensionNotRecognized(ext))
  }

  /**
   * Only the text after the last dot counts: `leak.tar.gz` is read through
   * gzip, while `leak.tgz` is refused with its extension `.tgz`.
   */
  lemma FormatOfName(base: string, ext: string)
    requires '.' !in ext && '/' !in ext
    ensures FormatOf(base + "." + ext)
         == if ext == "tar" then Ok(Plain)
            else if ext == "gz" then Ok(Gzip)
            else if ext == "xz" then Ok(Xz)
            else Err(ExtensionNotRecognized("." + ext))
  {
    ExtOfName(base, ext);
    DotExt(ext);
  }

  lemma DotExt(ext: string)
    ensures "." + ext == ".tar" <==> ext == "tar"
    ensures "." + ext == ".gz" <==> ext == "gz"
    ensures "." + ext == ".xz" <==> ext == "xz"
  {
    assert ("." + ext)[1..] == ext;
  }

  /** A path whose last element has no dot is refused with an empty extension. */
  lemma NoExtension(path: string)
    requires DotsBeforeSlash(path)
    ensures FormatOf(path) == Err(ExtensionNotRecognized(""))
  {
    ExtEmpty(path);
  }

  /** The extension of `base + "." + ext` when `ext` holds neither a dot nor a slash. */
  lemma {:induction false} ExtOfName(base: string, ext: string)
    requires '.' !in ext && '/' !in ext
    ensures Ext(base + "." + ext) == "." + ext
  {
    if ext != [] {
      var init := ext[..|ext| - 1];
      assert '.' !in init && '/' !in init;
      ExtOfName(base, init);
      assert (base + "." + ext)[..|base + "." + ext| - 1] == base + "." + init;
      assert "." + init + [ext[|ext| - 1]] == "." + ext;
    }
  }

  /** What reading the entries from index `k` on leaves: the state, the names scanned, and a panic. */
  datatype Read = Read(state: State, names: seq<string>, panicked: bool)

  /**
   * The entry loop of `readtar` from entry `k` on: directories are skipped,
   * every other entry is scanned, and a panic in `scanlines` ends the program.
   */
  function ReadFrom(s: State, entries: seq<Entry>, faults: seq<Faults>, k: nat, partition: bool): Read
    requires |faults| == |entries|
    decreases |entries| - k
  {
    if k >= |entries| then Read(s, [], false)
    else if entries[k].isDir then ReadFrom(s, entries, faults, k + 1, partition)
    else
      var o := Scan(s, entries[k].Lines(), faults[k], partition);
      if o.panicked then Read(o.state, [entries[k].name], true)
      else
        var r := ReadFrom(o.state, entries, faults, k + 1, partition);
        r.(names := [entries[k].name] + r.names)
  }

  /** The names of the entries that are not directories, in archive order. */
  function RegularNames(entries: seq<Entry>): seq<string>
  {
    if entries == [] then []
    else if entries[0].isDir then RegularNames(entries[1..])
    else [entries[0].name] + RegularNames(entries[1..])
  }

  /**
   * The entries scanned are the regular entries in archive order: all of
   * them, or, after a panic, those up to and including the one that panicked.
   */
  lemma {:induction false} ScannedInOrder(s: State, entries: seq<Entry>, faults: seq<Faults>, k: nat, partition: bool)
    requires |faults| == |entries| && k <= |entries|
    ensures var r := ReadFrom(s, entries, faults, k, partition);
      && |r.names| <= |RegularNames(entries[k..])|
      && r.names == RegularNames(entries[k..])[..|r.names|]
      && (!r.panicked ==> r.names == RegularNames(entries[k..]))
      && (r.panicked ==> r.names != [])
    decreases |entries| - k
  {
    if k < |entries| {
      assert entries[k..][1..] == entries[k + 1..];
      if !entries[k].isDir {
        var o := Scan(s, entries[k].Lines(), faults[k], partition);
        if !o.panicked {
          ScannedInOrder(o.state, entries, faults, k + 1, partition);
        }
      } else {
        ScannedInOrder(s, entries, faults, k + 1, partition);
      }
    }
  }

  /** An archive of directories only leaves the writer as it was. */
  lemma {:induction false} DirectoriesOnly(s: State, entries: seq<Entry>, faults: seq<Faults>, k: nat, partition: bool)
    requires |faults| == |entries|
    requires forall j :: k <= j < |entries| ==> entries[j].isDir
    ensures ReadFrom(s, entries, faults, k, partition) == Read(s, [], false)
    decreases |entries| - k
  {
    if k < |entries| {
      DirectoriesOnly(s, entries, faults, k + 1, partition);
    }
  }

  /**
   * Two regular entries, the first of clean lines only, the second with a
   * clean line and then one without a separator: every record of the first
   * entry is committed, and so is the record of the second entry read before
   * the bad line, by the final commit of its `scanlines`.
   */
  lemma TwoEntries(s: State, e1: Entry, e2: Entry, recs: seq<Record>, rec: Record,
                   f1: Faults, f2: Faults, partition: bool)
    requires !e1.isDir && !e2.isDir
    requires Clean(e1.Lines(), recs, f1) && |recs| == |e1.Lines()| > 0
    requires Clean(e2.Lines(), [rec], f2) && |e2.Lines()| >= 2
    requires Parse(e2.Lines()[1]).Err?
    ensures var r := ReadFrom(s, [e1, e2], [f1, f2], 0, partition);
      && r.names == [e1.name, e2.name]
      && !r.panicked
      && r.state.committed == s.committed + recs + [rec]
  {
    var entries := [e1, e2];
    var faults := [f1, f2];
    CleanStream(s, e1.Lines(), recs, f1, partition);
    var o1 := Scan(s, e1.Lines(), f1, partition);
    StopsAtMissingSeparator(o1.state, e2.Lines(), [rec], f2, partition);
    var o2 := Scan(o1.state, e2.Lines(), f2, partition);
    ReadRegular(s, entries, faults, 0, partition, o1);
    ReadRegular(o1.state, entries, faults, 1, partition, o2);
    assert ReadFrom(o2.state, entries, faults, 2, partition) == Read(o2.state, [], false);
  }

  /** One regular entry: scan it, then stop on a panic or go on with the next entry. */
  lemma ReadRegular(s: State, entries: seq<Entry>, faults: seq<Faults>, k: nat, partition: bool, o: Outcome)
    requires |faults| == |entries| && k < |entries| && !entries[k].isDir
    requires o == Scan(s, entries[k].Lines(), faults[k], partition)
    ensures ReadFrom(s, entries, faults, k, partition)
         == if o.panicked then Read(o.state, [entries[k].name], true)
            else ReadFrom(o.state, entries, faults, k + 1, partition).(names :=
                   [entries[k].name] + ReadFrom(o.state, entries, faults, k + 1, partition).names)
  {
  }

  /** `scanlines` on one regular entry, as one step of `ReadFrom`. */
  method ScanEntry(w: Writer, entries: seq<Entry>, faults: seq<Faults>, k: nat) returns (crashed: bool)
    requires |faults| == |entries| && k < |entries| && !entries[k].isDir
    modifies w
    ensures var r := ReadFrom(old(w.Snapshot()), entries, faults, k, w.partition);
      if crashed then r == Read(w.Snapshot(), [entries[k].name], true)
      else r == ReadFrom(w.Snapshot(), entries, faults, k + 1, w.partition).(names :=
                  [entries[k].name] + ReadFrom(w.Snapshot(), entries, faults, k + 1, w.partition).names)
  {
    ghost var before := w.Snapshot();
    var stop;
    stop, crashed := w.ScanLines(entries[k].content, faults[k]);
    ReadRegular(before, entries, faults, k, w.partition, Outcome(w.Snapshot(), stop, crashed));
  }

  /**
   * `readtar` on the archive at `path`: an unknown extension exits before
   * any entry is read; otherwise every regular entry is scanned in order
   * until one panics.
   */
  method ReadTar(w: Writer, path: string, entries: seq<Entry>, faults: seq<Faults>)
    returns (result: Result<seq<string>, ArchiveError>, panicked: bool)
    requires |faults| == |entries|
    modifies w
    ensures FormatOf(path).Err? ==>
      result == Err(FormatOf(path).error) && !panicked && w.Snapshot() == old(w.Snapshot())
    ensures FormatOf(path).Ok? ==>
      var r := ReadFrom(old(w.Snapshot()), entries, faults, 0, w.partition);
      result == Ok(r.names) && panicked == r.panicked && w.Snapshot() == r.state
  {
    var format := FormatOf(path);
    if format.Err? {
      return Err(format.error), false;
    }
    var names;
    names, panicked := ReadEntries(w, entries, faults);
    result := Ok(names);
  }

  /** The `tr.Next()` loop of `readtar`: the entries in order, until one panics. */
  method ReadEntries(w: Writer, entries: seq<Entry>, faults: seq<Faults>)
    returns (names: seq<string>, panicked: bool)
    requires |faults| == |entries|
    modifies w
    ensures var r := ReadFrom(old(w.Snapshot()), entries, faults, 0, w.partition);
      names == r.names && panicked == r.panicked && w.Snapshot() == r.state
  {
    ghost var goal := ReadFrom(w.Snapshot(), entries, faults, 0, w.partition);
    names := [];
    var k := 0;
    while k < |entries|
      invariant k <= |entries|
      invariant var r := ReadFrom(w.Snapshot(), entries, faults, k, w.partition);
        r.state == goal.state && names + r.names == goal.names && r.panicked == goal.panicked
      decreases |entries| - k
    {
      if !entries[k].isDir {
        var crashed := ScanEntry(w, entries, faults, k);
        if crashed {
          return names + [entries[k].name], true;
        }
        names := names + [entries[k].name];
      }
      k := k + 1;
    }
    assert ReadFrom(w.Snapshot(), entries, faults, k, w.partition) == Read(w.Snapshot(), [], false);
    assert names + [] == names;
    panicked := false;
  }
}
