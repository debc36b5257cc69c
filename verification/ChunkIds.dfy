/**
 When a build meets its own primary key: the chunk id is made of the revision, the path, the part's hash, its
 lines within the symbol and its number (backend/app/services/indexing.py), and leaves the symbol out.
 */
module ChunkIds {
  import opened Lines
  import opened ChunkSplitter
  import opened FileChunks
  import opened JoinedFields
  import opened IndexBuild

  /** SHA-256 in hexadecimal digits, taken to be injective. */
  ghost predicate IsDigest(digest: string -> string) {
    && (forall x, y :: digest(x) == digest(y) ==> x == y)
    && (forall x :: NoBar(digest(x)))
  }

  /** The splitter gives both texts an equal part: same number, same lines, same text. */
  ghost predicate SharePart(x: string, y: string, lim: Limits)
    requires lim.maxLines >= 1
  {
    exists p :: 0 <= p < |Split(x, lim)| && p < |Split(y, lim)| && Split(x, lim)[p] == Split(y, lim)[p]
  }

  /** No two of the first k symbols share a part. */
  ghost predicate NoSharedParts(text: string, symbols: seq<Symbol>, lim: Limits, k: nat)
    requires lim.maxLines >= 1 && k <= |symbols|
  {
    forall a, b :: 0 <= a < b < k ==> !SharePart(SourceText(text, symbols[a]), SourceText(text, symbols[b]), lim)
  }

  /** Ids coincide exactly for the same path, hash, lines and part number; the path may hold the separator. */
  lemma {:induction false} IdsCollideIff(revision: string, path: string, hash: string, start: nat, end: nat,
                                         part: nat, path': string, hash': string, start': nat, end': nat, part': nat)
    requires NoBar(revision) && NoBar(hash) && NoBar(hash')
    ensures ChunkId(revision, path, hash, start, end, part) == ChunkId(revision, path', hash', start', end', part') <==>
            path == path' && hash == hash' && start == start' && end == end' && part == part'
  {
    var a := [revision, path, hash, Decimal(start), Decimal(end), Decimal(part)];
    var b := [revision, path', hash', Decimal(start'), Decimal(end'), Decimal(part')];
    hide JoinWith, Decimal, ReadDecimal, Bars;
    if JoinWith('|', a) == JoinWith('|', b) {
      assert Bars(path) == Bars(path') by {
        OnlyThePathHasBars(a);
        OnlyThePathHasBars(b);
      }
      forall i | 0 <= i < 6 ensures i == 1 || Bars(a[i]) == Bars(b[i]) == 0 {
        NoBarIff(a[i]);
        NoBarIff(b[i]);
      }
      JoinWithInjective(a, b);
      assert a[1] == b[1] && a[2] == b[2] && a[3] == b[3] && a[4] == b[4] && a[5] == b[5];
      ReadOfDecimal(start);
      ReadOfDecimal(start');
      ReadOfDecimal(end);
      ReadOfDecimal(end');
      ReadOfDecimal(part);
      ReadOfDecimal(part');
    }
  }

  lemma {:induction false} OnlyThePathHasBars(a: seq<string>)
    requires |a| == 6 && NoBar(a[0]) && NoBar(a[2]) && NoBar(a[3]) && NoBar(a[4]) && NoBar(a[5])
    ensures Bars(JoinWith('|', a)) == Bars(a[1]) + 5
  {
    hide JoinWith, Bars, NoBar, SumOfBars;
    BarsOfJoined(a);
    OneCarriesBars(a, 1);
  }

  // ----- Lists of chunks -----

  predicate Apart(a: seq<Chunk>, b: seq<Chunk>) {
    forall i, j :: 0 <= i < |a| && 0 <= j < |b| ==> a[i].id != b[j].id
  }

  lemma {:induction false} DistinctIdsOfConcat(a: seq<Chunk>, b: seq<Chunk>)
    ensures DistinctIds(a + b) <==> DistinctIds(a) && DistinctIds(b) && Apart(a, b)
  {
    var all := a + b;
    assert forall j :: 0 <= j < |b| ==> all[|a| + j] == b[j];
    assert forall i :: 0 <= i < |a| ==> all[i] == a[i];
    if DistinctIds(all) {
      forall i, j | 0 <= i < j < |b| ensures b[i].id != b[j].id {
        assert all[|a| + i].id != all[|a| + j].id;
      }
      forall i, j | 0 <= i < |a| && 0 <= j < |b| ensures a[i].id != b[j].id {
        assert all[i].id != all[|a| + j].id;
      }
    }
    if DistinctIds(a) && DistinctIds(b) && Apart(a, b) {
      forall i, j | 0 <= i < j < |all| ensures all[i].id != all[j].id {
        if i >= |a| {
          assert b[i - |a|].id != b[j - |a|].id;
        }
      }
    }
  }

  lemma {:induction false} ApartOfConcat(a: seq<Chunk>, b: seq<Chunk>, c: seq<Chunk>)
    ensures Apart(a + b, c) <==> Apart(a, c) && Apart(b, c)
  {
    assert forall j :: 0 <= j < |b| ==> (a + b)[|a| + j] == b[j];
    assert forall i :: 0 <= i < |a| ==> (a + b)[i] == a[i];
  }

  // ----- Symbols of one file -----

  /** Two part chunks of one file have equal ids exactly when they are the same part at the same number. */
  lemma {:induction false} PartIdsCollideIff(revision: string, file: File, parsed: Parsed, lim: Limits,
                                             digest: string -> string, s: Symbol, t: Symbol, i: nat, j: nat)
    requires lim.maxLines >= 1 && NoBar(revision) && IsDigest(digest)
    requires i < |Split(SourceText(file.Text(), s), lim)| && j < |Split(SourceText(file.Text(), t), lim)|
    ensures var a := SymbolChunks(revision, file, parsed, s, lim, digest);
            var b := SymbolChunks(revision, file, parsed, t, lim, digest);
            a[i].id == b[j].id <==>
            i == j && Split(SourceText(file.Text(), s), lim)[i] == Split(SourceText(file.Text(), t), lim)[j]
  {
    hide Split, SourceText, ChunkId, SymbolSearchText;
    var p, q := Split(SourceText(file.Text(), s), lim)[i], Split(SourceText(file.Text(), t), lim)[j];
    IdsCollideIff(revision, file.path, digest(p.text), p.start, p.end, i + 1,
                  file.path, digest(q.text), q.start, q.end, j + 1);
  }

  lemma {:induction false} SymbolsApartIff(revision: string, file: File, parsed: Parsed, lim: Limits,
                                           digest: string -> string, s: Symbol, t: Symbol)
    requires lim.maxLines >= 1 && NoBar(revision) && IsDigest(digest)
    ensures Apart(SymbolChunks(revision, file, parsed, s, lim, digest),
                  SymbolChunks(revision, file, parsed, t, lim, digest))
       <==> !SharePart(SourceText(file.Text(), s), SourceText(file.Text(), t), lim)
  {
    hide Split, SourceText, IsDigest, NoBar;
    var x, y := Split(SourceText(file.Text(), s), lim), Split(SourceText(file.Text(), t), lim);
    var a := SymbolChunks(revision, file, parsed, s, lim, digest);
    var b := SymbolChunks(revision, file, parsed, t, lim, digest);
    forall i, j | 0 <= i < |x| && 0 <= j < |y| ensures a[i].id == b[j].id <==> i == j && x[i] == y[j] {
      PartIdsCollideIff(revision, file, parsed, lim, digest, s, t, i, j);
    }
    hide SymbolChunks;
    if p :| 0 <= p < |x| && p < |y| && x[p] == y[p] {
      assert a[p].id == b[p].id;
    }
  }

  lemma {:induction false} SymbolIdsAreDistinct(revision: string, file: File, parsed: Parsed, lim: Limits,
                                                digest: string -> string, s: Symbol)
    requires lim.maxLines >= 1 && NoBar(revision) && IsDigest(digest)
    ensures DistinctIds(SymbolChunks(revision, file, parsed, s, lim, digest))
  {
    hide Split, SourceText, IsDigest, NoBar;
    var a := SymbolChunks(revision, file, parsed, s, lim, digest);
    forall i, j | 0 <= i < j < |a| ensures a[i].id != a[j].id {
      PartIdsCollideIff(revision, file, parsed, lim, digest, s, s, i, j);
    }
  }

  /** None of the first k symbols shares a part with t. */
  ghost predicate SharesNone(text: string, symbols: seq<Symbol>, lim: Limits, k: nat, t: Symbol)
    requires lim.maxLines >= 1 && k <= |symbols|
  {
    forall a :: 0 <= a < k ==> !SharePart(SourceText(text, symbols[a]), SourceText(text, t), lim)
  }

  lemma {:induction false} SharingSteps(text: string, symbols: seq<Symbol>, lim: Limits, k: nat, t: Symbol)
    requires lim.maxLines >= 1 && 0 < k <= |symbols|
    ensures SharesNone(text, symbols, lim, k, t) <==>
            SharesNone(text, symbols, lim, k - 1, t)
            && !SharePart(SourceText(text, symbols[k - 1]), SourceText(text, t), lim)
    ensures NoSharedParts(text, symbols, lim, k) <==>
            NoSharedParts(text, symbols, lim, k - 1) && SharesNone(text, symbols, lim, k - 1, symbols[k - 1])
  {
    hide SharePart, SourceText;
  }

  lemma {:induction false} FirstApartIff(revision: string, file: File, parsed: Parsed, lim: Limits,
                                         digest: string -> string, k: nat, t: Symbol)
    requires lim.maxLines >= 1 && NoBar(revision) && IsDigest(digest) && k <= |parsed.symbols|
    ensures Apart(ChunksOfFirst(revision, file, parsed, lim, digest, k),
                  SymbolChunks(revision, file, parsed, t, lim, digest))
       <==> SharesNone(file.Text(), parsed.symbols, lim, k, t)
  {
    hide *;
    FirstSteps(revision, file, parsed, lim, digest, k);
    if k == 0 {
      NothingIsApart(SymbolChunks(revision, file, parsed, t, lim, digest));
      NoneShares(file.Text(), parsed.symbols, lim, t);
    } else {
      FirstApartIff(revision, file, parsed, lim, digest, k - 1, t);
      SymbolsApartIff(revision, file, parsed, lim, digest, parsed.symbols[k - 1], t);
      ApartOfConcat(ChunksOfFirst(revision, file, parsed, lim, digest, k - 1),
                    SymbolChunks(revision, file, parsed, parsed.symbols[k - 1], lim, digest),
                    SymbolChunks(revision, file, parsed, t, lim, digest));
      SharingSteps(file.Text(), parsed.symbols, lim, k, t);
    }
  }

  lemma {:induction false} NothingIsApart(b: seq<Chunk>)
    ensures Apart([], b) && DistinctIds([])
  {
  }

  lemma {:induction false} NoneShares(text: string, symbols: seq<Symbol>, lim: Limits, t: Symbol)
    requires lim.maxLines >= 1
    ensures SharesNone(text, symbols, lim, 0, t)
  {
  }

  lemma {:induction false} FirstDistinctIff(revision: string, file: File, parsed: Parsed, lim: Limits,
                                            digest: string -> string, k: nat)
    requires lim.maxLines >= 1 && NoBar(revision) && IsDigest(digest) && k <= |parsed.symbols|
    ensures DistinctIds(ChunksOfFirst(revision, file, parsed, lim, digest, k))
       <==> NoSharedParts(file.Text(), parsed.symbols, lim, k)
  {
    hide *;
    FirstSteps(revision, file, parsed, lim, digest, k);
    if k == 0 {
      NothingIsApart([]);
      NoSharing(file.Text(), parsed.symbols, lim);
    } else {
      var own := SymbolChunks(revision, file, parsed, parsed.symbols[k - 1], lim, digest);
      FirstDistinctIff(revision, file, parsed, lim, digest, k - 1);
      FirstApartIff(revision, file, parsed, lim, digest, k - 1, parsed.symbols[k - 1]);
      SymbolIdsAreDistinct(revision, file, parsed, lim, digest, parsed.symbols[k - 1]);
      DistinctIdsOfConcat(ChunksOfFirst(revision, file, parsed, lim, digest, k - 1), own);
      SharingSteps(file.Text(), parsed.symbols, lim, k, parsed.symbols[k - 1]);
    }
  }

  lemma {:induction false} NoSharing(text: string, symbols: seq<Symbol>, lim: Limits)
    requires lim.maxLines >= 1
    ensures NoSharedParts(text, symbols, lim, 0)
  {
  }

  lemma {:induction false} FileDistinctIff(revision: string, file: File, parsed: Parsed, lim: Limits,
                                           digest: string -> string)
    requires lim.maxLines >= 1 && NoBar(revision) && IsDigest(digest)
    ensures DistinctIds(Materialize(revision, file, parsed, lim, digest))
       <==> NoSharedParts(file.Text(), parsed.symbols, lim, |parsed.symbols|)
  {
    hide SharePart, SourceText, IsDigest, NoBar, ChunksOfFirst;
    FirstDistinctIff(revision, file, parsed, lim, digest, |parsed.symbols|);
  }

  // ----- All files -----

  /** The id names this path. */
  ghost predicate NamesPath(id: string, revision: string, path: string) {
    exists hash, start: nat, end: nat, part: nat :: NoBar(hash) && id == ChunkId(revision, path, hash, start, end, part)
  }

  lemma {:induction false} DifferentPathsDifferentIds(id: string, id': string, revision: string, path: string,
                                                      path': string)
    requires NoBar(revision) && NamesPath(id, revision, path) && NamesPath(id', revision, path') && path != path'
    ensures id != id'
  {
    hide ChunkId, NoBar;
    var hash, start: nat, end: nat, part: nat :| NoBar(hash) && id == ChunkId(revision, path, hash, start, end, part);
    var hash', start': nat, end': nat, part': nat :|
      NoBar(hash') && id' == ChunkId(revision, path', hash', start', end', part');
    IdsCollideIff(revision, path, hash, start, end, part, path', hash', start', end', part');
  }

  lemma {:induction false} FirstNamePath(revision: string, file: File, parsed: Parsed, lim: Limits,
                                         digest: string -> string, k: nat)
    requires lim.maxLines >= 1 && IsDigest(digest) && k <= |parsed.symbols|
    ensures forall c :: c in ChunksOfFirst(revision, file, parsed, lim, digest, k) ==>
              NamesPath(c.id, revision, file.path)
  {
    hide Split, SourceText, SymbolSearchText, NoBar;
    if k > 0 {
      FirstNamePath(revision, file, parsed, lim, digest, k - 1);
      hide NamesPath, IsDigest;
      forall c | c in SymbolChunks(revision, file, parsed, parsed.symbols[k - 1], lim, digest)
        ensures NamesPath(c.id, revision, file.path)
      {
        PartNamesPath(c, revision, file.path, digest);
      }
    }
  }

  lemma {:induction false} PartNamesPath(c: Chunk, revision: string, path: string, digest: string -> string)
    requires IsDigest(digest)
    requires c.id == ChunkId(revision, path, digest(c.exactContent), c.startLine, c.endLine, c.partNumber)
    ensures NamesPath(c.id, revision, path)
  {
    hide NoBar, ChunkId;
    assert NoBar(digest(c.exactContent));
  }

  lemma {:induction false} FileNamesPath(revision: string, file: File, parsed: Parsed, lim: Limits,
                                         digest: string -> string)
    requires lim.maxLines >= 1 && IsDigest(digest)
    ensures forall c :: c in Materialize(revision, file, parsed, lim, digest) ==> NamesPath(c.id, revision, file.path)
  {
    hide NoBar, NamesPath, ChunksOfFirst, SplitLines, Join, IsDigest;
    FirstNamePath(revision, file, parsed, lim, digest, |parsed.symbols|);
    var whole := WholeFileChunk(revision, file, parsed, digest);
    assert whole.id == ChunkId(revision, file.path, digest(whole.exactContent), 1, 1, 1);
    PartNamesPath(whole.(endLine := 1), revision, file.path, digest);
  }

  ghost predicate NamesOneOf(id: string, revision: string, files: seq<File>) {
    exists n :: 0 <= n < |files| && NamesPath(id, revision, files[n].path)
  }

  lemma {:induction false} AllNameAPath(revision: string, files: seq<File>, parse: Parser, lim: Limits,
                                        digest: string -> string)
    requires lim.maxLines >= 1 && IsDigest(digest)
    ensures forall c :: c in AllChunks(revision, files, parse, lim, digest) ==> NamesOneOf(c.id, revision, files)
  {
    hide Materialize, IsDigest, NamesPath, NamesOneOf;
    if files != [] {
      var front, last := files[..|files| - 1], files[|files| - 1];
      var own := Materialize(revision, last, parse(last.path, last.Text()), lim, digest);
      AllNameAPath(revision, front, parse, lim, digest);
      FileNamesPath(revision, last, parse(last.path, last.Text()), lim, digest);
      forall c | c in AllChunks(revision, front, parse, lim, digest) + own ensures NamesOneOf(c.id, revision, files) {
        OneOfMore(c.id, revision, files);
      }
    }
  }

  lemma {:induction false} OneOfMore(id: string, revision: string, files: seq<File>)
    requires files != []
    ensures NamesOneOf(id, revision, files[..|files| - 1]) || NamesPath(id, revision, files[|files| - 1].path) ==>
              NamesOneOf(id, revision, files)
  {
    hide NamesPath;
    var front := files[..|files| - 1];
    if n :| 0 <= n < |front| && NamesPath(id, revision, front[n].path) {
      assert files[n] == front[n];
    }
  }

  /** With unique paths the chunks of a further file meet none of the earlier ones. */
  lemma {:induction false} FilesApart(revision: string, files: seq<File>, parse: Parser, lim: Limits,
                                      digest: string -> string)
    requires lim.maxLines >= 1 && NoBar(revision) && IsDigest(digest) && UniquePaths(files) && files != []
    ensures var front, last := files[..|files| - 1], files[|files| - 1];
            Apart(AllChunks(revision, front, parse, lim, digest),
                  Materialize(revision, last, parse(last.path, last.Text()), lim, digest))
  {
    var front, last := files[..|files| - 1], files[|files| - 1];
    var a := AllChunks(revision, front, parse, lim, digest);
    var b := Materialize(revision, last, parse(last.path, last.Text()), lim, digest);
    AllNameAPath(revision, front, parse, lim, digest);
    FileNamesPath(revision, last, parse(last.path, last.Text()), lim, digest);
    hide AllChunks, Materialize, NamesPath, IsDigest, NoBar;
    forall i, j | 0 <= i < |a| && 0 <= j < |b| ensures a[i].id != b[j].id {
      assert a[i] in a && b[j] in b;
      var n :| 0 <= n < |front| && NamesPath(a[i].id, revision, front[n].path);
      DifferentPathsDifferentIds(a[i].id, b[j].id, revision, front[n].path, last.path);
    }
  }

  /** No file has two symbols that share a part. */
  ghost predicate NoFileShares(files: seq<File>, parse: Parser, lim: Limits)
    requires lim.maxLines >= 1
  {
    forall n :: 0 <= n < |files| ==> FileSharesNone(files[n], parse, lim)
  }

  ghost predicate FileSharesNone(file: File, parse: Parser, lim: Limits)
    requires lim.maxLines >= 1
  {
    var symbols := parse(file.path, file.Text()).symbols;
    NoSharedParts(file.Text(), symbols, lim, |symbols|)
  }

  /**
   Exactly when a build keeps its primary key: no two symbols of one file share a part, that is a text at
   the same number and on the same lines of their own slices.
   */
  lemma {:induction false} BuildIdsDistinctIff(revision: string, files: seq<File>, parse: Parser, lim: Limits,
                                               digest: string -> string)
    requires lim.maxLines >= 1 && NoBar(revision) && IsDigest(digest) && UniquePaths(files)
    ensures DistinctIds(AllChunks(revision, files, parse, lim, digest)) <==> NoFileShares(files, parse, lim)
  {
    hide Materialize, NoSharedParts, IsDigest, NoBar;
    if files != [] {
      var front, last := files[..|files| - 1], files[|files| - 1];
      BuildIdsDistinctIff(revision, front, parse, lim, digest);
      FileDistinctIff(revision, last, parse(last.path, last.Text()), lim, digest);
      FilesApart(revision, files, parse, lim, digest);
      DistinctIdsOfConcat(AllChunks(revision, front, parse, lim, digest),
                          Materialize(revision, last, parse(last.path, last.Text()), lim, digest));
      hide DistinctIds, Apart;
      LastFileShares(files, parse, lim);
    }
  }

  /** So a build with one vector per text succeeds exactly when no accepted file has two symbols that share a part. */
  lemma {:induction false} BuildSucceedsIff(revision: string, files: seq<File>, previous: map<string, Stored>,
                                            parse: Parser, lim: Limits, digest: string -> string, provider: Provider,
                                            size: nat)
    requires lim.maxLines >= 1 && size >= 1 && NoBar(revision) && IsDigest(digest) && UniquePaths(files)
    requires OnePerText(provider)
    ensures var chunks := AllChunks(revision, Accepted(files), parse, lim, digest);
            |Computed(chunks, previous, provider, size)| <= |Pending(chunks, previous, |chunks|)| && DistinctIds(chunks)
            <==> NoFileShares(Accepted(files), parse, lim)
  {
    hide *;
    var chunks := AllChunks(revision, Accepted(files), parse, lim, digest);
    OneVectorPerText(chunks, previous, provider, size);
    AcceptedMembers(files);
    BuildIdsDistinctIff(revision, Accepted(files), parse, lim, digest);
  }

  lemma {:induction false} LastFileShares(files: seq<File>, parse: Parser, lim: Limits)
    requires lim.maxLines >= 1 && files != []
    ensures NoFileShares(files, parse, lim) <==>
            NoFileShares(files[..|files| - 1], parse, lim) && FileSharesNone(files[|files| - 1], parse, lim)
  {
    hide FileSharesNone;
    var front := files[..|files| - 1];
    assert forall n :: 0 <= n < |front| ==> front[n] == files[n];
  }

  /** Two symbols with the same source text share their first part, so the build fails whatever else it holds. */
  lemma {:induction false} EqualSourcesFailBuild(revision: string, files: seq<File>, parse: Parser, lim: Limits,
                                                 digest: string -> string, n: nat, a: nat, b: nat)
    requires lim.maxLines >= 1 && n < |files|
    requires a < b < |parse(files[n].path, files[n].Text()).symbols|
    requires var symbols := parse(files[n].path, files[n].Text()).symbols;
             SourceText(files[n].Text(), symbols[a]) == SourceText(files[n].Text(), symbols[b])
    ensures !DistinctIds(AllChunks(revision, files, parse, lim, digest))
  {
    var tree := parse(files[n].path, files[n].Text());
    assert |SymbolChunks(revision, files[n], tree, tree.symbols[a], lim, digest)| > 0;
    hide Materialize, SourceText, Split, AllChunks, SymbolChunks;
    SharedPartFailsBuild(revision, files, parse, lim, digest, n, a, b, 0);
  }

  /** One shared part is enough; nothing is asked of paths, revision or digest. */
  lemma {:induction false} SharedPartFailsBuild(revision: string, files: seq<File>, parse: Parser, lim: Limits,
                                                digest: string -> string, n: nat, a: nat, b: nat, p: nat)
    requires lim.maxLines >= 1 && n < |files|
    requires a < b < |parse(files[n].path, files[n].Text()).symbols|
    requires var symbols := parse(files[n].path, files[n].Text()).symbols;
             var x := Split(SourceText(files[n].Text(), symbols[a]), lim);
             var y := Split(SourceText(files[n].Text(), symbols[b]), lim);
             p < |x| && p < |y| && x[p] == y[p]
    ensures !DistinctIds(AllChunks(revision, files, parse, lim, digest))
  {
    var tree := parse(files[n].path, files[n].Text());
    hide Materialize, SourceText, Split, AllChunks, SymbolChunks;
    var c, d := SharedPartSharesId(revision, files[n], tree, lim, digest, a, b, p);
    var offset := FileChunksAt(revision, files, parse, lim, digest, n);
    var all := AllChunks(revision, files, parse, lim, digest);
    assert all[offset + c].id == all[offset + d].id;
  }

  /** Different texts can share a part: with windows of one line, two texts that begin with the same line. */
  lemma {:induction false} DifferentSourcesCanShare()
    ensures SharePart("x\ny", "x\nz", Limits(4000, 1, 0))
  {
    var lim := Limits(4000, 1, 0);
    assert Join(["x", "y"]) == "x\ny" && Join(["x", "z"]) == "x\nz";
    SplitLinesOfJoin(["x", "y"]);
    SplitLinesOfJoin(["x", "z"]);
    hide SplitLines, SplitFrom;
    assert SourceLines("x\ny") == ["x", "y"] && SourceLines("x\nz") == ["x", "z"];
    FirstPart(["x", "y"], 0, lim);
    FirstPart(["x", "z"], 0, lim);
    assert ["x", "y"][0..1] == ["x"] == ["x", "z"][0..1];
    assert Split("x\ny", lim)[0] == Split("x\nz", lim)[0];
  }
}
