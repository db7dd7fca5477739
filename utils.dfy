/** The helpers of utils.py: the quote scanner, the registry choice labels,
    the one-level directory scan, the confirmation guard, the scoped change
    of working directory and the models-directory listing. */
module Utils {
  import opened Common
  import opened FileSystem
  import opened Registry

  const Quote: char := '\''

  /** Position of the first `c` in `s`. */
  function IndexOf(s: string, c: char): (i: nat)
    requires c in s
    ensures i < |s| && s[i] == c && c !in s[..i]
    decreases |s|
  {
    if s[0] == c then 0 else 1 + IndexOf(s[1..], c)
  }

  /** One match of `'(.*?)'`: the text skipped before the opening quote,
      the text up to the closing quote, and the text after it. */
  datatype Match = Match(skipped: string, part: string, after: string)

  /** The leftmost match of `'(.*?)'` in `s`: the first quote opens it and
      the next quote closes it. */
  function NextQuoted(s: string): (r: Option<Match>)
    ensures r.Some? ==> Quote !in r.value.skipped && Quote !in r.value.part
    ensures r.Some? ==> |r.value.after| < |s|
  {
    if Quote !in s then None
    else
      var i := IndexOf(s, Quote);
      var rest := s[i + 1..];
      if Quote !in rest then None
      else
        var j := IndexOf(rest, Quote);
        Some(Match(s[..i], rest[..j], rest[j + 1..]))
  }

  /** A match exists iff there are two quotes, and it is `s` taken apart:
      the skipped text, the opening quote, the part, the closing quote, and
      the rest, which holds two quotes fewer. */
  lemma NextQuotedSplits(s: string)
    ensures NextQuoted(s).None? <==> multiset(s)[Quote] < 2
    ensures NextQuoted(s).Some? ==> var m := NextQuoted(s).value;
      && s == m.skipped + [Quote] + m.part + [Quote] + m.after
      && multiset(s)[Quote] == 2 + multiset(m.after)[Quote]
  {
    if Quote !in s {
      assert multiset(s)[Quote] == 0;
    } else {
      var i := IndexOf(s, Quote);
      var rest := s[i + 1..];
      SplitAt(s, i);
      if Quote !in rest {
        assert multiset(rest)[Quote] == 0;
      } else {
        var j := IndexOf(rest, Quote);
        SplitAt(rest, j);
        Regroup(s[..i], rest[..j], rest[j + 1..]);
      }
    }
  }

  /** `s` around its first occurrence of `s[i]`, and the count of `s[i]`. */
  lemma SplitAt(s: string, i: nat)
    requires i < |s| && s[i] !in s[..i]
    ensures s == s[..i] + [s[i]] + s[i + 1..]
    ensures multiset(s)[s[i]] == 1 + multiset(s[i + 1..])[s[i]]
  {
    CountAround(s, i);
  }

  /** The nested and flat spellings of a quoted part between two texts. */
  lemma Regroup(a: string, b: string, c: string)
    ensures a + [Quote] + (b + [Quote] + c) == a + [Quote] + b + [Quote] + c
  {
  }

  /** `re.findall(r"'(.*?)'", s, re.DOTALL)`: the text between the first and
      second quote, the third and fourth, and so on; an unmatched last quote
      yields nothing. */
  function StringExtract(s: string): (r: seq<string>)
    ensures forall k :: 0 <= k < |r| ==> Quote !in r[k]
    decreases |s|
  {
    match NextQuoted(s)
    case None => []
    case Some(m) => [m.part] + StringExtract(m.after)
  }

  /** Every two quotes make one match: there are half as many results as
      quotes, rounded down. */
  lemma {:induction false} ExtractCount(s: string)
    ensures |StringExtract(s)| == multiset(s)[Quote] / 2
    decreases |s|
  {
    NextQuotedSplits(s);
    match NextQuoted(s)
    case None =>
    case Some(m) => ExtractCount(m.after);
  }

  /** The texts the scanner skips: before each match, and what is left after
      the last one. */
  function ExtractGaps(s: string): (gaps: seq<string>)
    ensures |gaps| == |StringExtract(s)| + 1
    decreases |s|
  {
    match NextQuoted(s)
    case None => [s]
    case Some(m) => [m.skipped] + ExtractGaps(m.after)
  }

  /** Every text is its skipped gaps and its matches put back together: the
      matches are exactly the quoted parts, left to right, every gap but the
      last is quote-free, and the last holds at most one (unmatched) quote. */
  lemma {:induction false} ExtractDecomposes(s: string)
    ensures s == Assemble(ExtractGaps(s), StringExtract(s))
    ensures forall k :: 0 <= k < |ExtractGaps(s)| - 1 ==> Quote !in ExtractGaps(s)[k]
    ensures multiset(ExtractGaps(s)[|ExtractGaps(s)| - 1])[Quote] <= 1
    decreases |s|
  {
    NextQuotedSplits(s);
    match NextQuoted(s)
    case None =>
    case Some(m) =>
      ExtractDecomposes(m.after);
      var gs, ps := ExtractGaps(m.after), StringExtract(m.after);
      assert ExtractGaps(s) == [m.skipped] + gs;
      assert StringExtract(s) == [m.part] + ps;
      AssembleCons(m.skipped, gs, m.part, ps);
      forall k | 0 <= k < |gs| ensures Quote !in ([m.skipped] + gs)[k] {
        if k > 0 { assert ([m.skipped] + gs)[k] == gs[k - 1]; }
      }
  }

  /** Assembling after one more gap and part. */
  lemma AssembleCons(g: string, gaps: seq<string>, p: string, parts: seq<string>)
    requires |gaps| == |parts| + 1
    ensures Assemble([g] + gaps, [p] + parts) == g + [Quote] + p + [Quote] + Assemble(gaps, parts)
  {
    assert ([g] + gaps)[1..] == gaps && ([p] + parts)[1..] == parts;
  }

  /** How often `s[i]` occurs in `s`, when it is absent before `i`. */
  lemma CountAround(s: string, i: nat)
    requires i < |s| && s[i] !in s[..i]
    ensures multiset(s)[s[i]] == 1 + multiset(s[i + 1..])[s[i]]
  {
    assert s == s[..i] + [s[i]] + s[i + 1..];
    assert multiset(s) == multiset(s[..i]) + multiset{s[i]} + multiset(s[i + 1..]);
  }

  /** The first `c` in `g + [c] + t`, when `g` has none, is right after `g`. */
  lemma {:induction false} IndexAfter(g: string, c: char, t: string)
    requires c !in g
    ensures IndexOf(g + [c] + t, c) == |g|
    ensures (g + [c] + t)[..|g|] == g && (g + [c] + t)[|g| + 1..] == t
    decreases |g|
  {
    var s := g + [c] + t;
    if g != [] {
      assert s[1..] == g[1..] + [c] + t;
      IndexAfter(g[1..], c, t);
    }
  }

  /** gaps[0] 'parts[0]' gaps[1] 'parts[1]' ... gaps[n]. */
  function Assemble(gaps: seq<string>, parts: seq<string>): string
    requires |gaps| == |parts| + 1
    decreases |parts|
  {
    if parts == [] then gaps[0]
    else gaps[0] + [Quote] + parts[0] + [Quote] + Assemble(gaps[1..], parts[1..])
  }

  /** One step of the scanner: a quote-free gap, then a quote-free part
      between two quotes. */
  lemma ExtractStep(g: string, p: string, tail: string)
    requires Quote !in g && Quote !in p
    ensures StringExtract(g + [Quote] + p + [Quote] + tail) == [p] + StringExtract(tail)
  {
    var rest := p + [Quote] + tail;
    var s := g + [Quote] + rest;
    assert g + [Quote] + p + [Quote] + tail == s;
    IndexAfter(g, Quote, rest);
    IndexAfter(p, Quote, tail);
    assert NextQuoted(s) == Some(Match(g, p, tail));
  }

  /** The first gap and quoted part of an assembled text are one scanner step. */
  lemma AssembledStep(gaps: seq<string>, parts: seq<string>)
    requires |gaps| == |parts| + 1 && parts != []
    requires Quote !in gaps[0] && Quote !in parts[0]
    ensures StringExtract(Assemble(gaps, parts)) == [parts[0]] + StringExtract(Assemble(gaps[1..], parts[1..]))
  {
    var tail := Assemble(gaps[1..], parts[1..]);
    assert Assemble(gaps, parts) == gaps[0] + [Quote] + parts[0] + [Quote] + tail;
    ExtractStep(gaps[0], parts[0], tail);
  }

  /** The scanner recovers every quoted part, in order, from any text that
      surrounds quote-free parts with quote-free gaps. */
  lemma {:induction false} ExtractAssembled(gaps: seq<string>, parts: seq<string>)
    requires |gaps| == |parts| + 1
    requires forall k :: 0 <= k < |gaps| ==> Quote !in gaps[k]
    requires forall k :: 0 <= k < |parts| ==> Quote !in parts[k]
    ensures StringExtract(Assemble(gaps, parts)) == parts
    decreases |parts|
  {
    if parts == [] {
      assert NextQuoted(gaps[0]) == None;
    } else {
      AssembledStep(gaps, parts);
      ExtractAssembled(gaps[1..], parts[1..]);
      HeadTail(parts);
    }
  }

  /** `d.join(parts)`. */
  function JoinWith(parts: seq<string>, d: char): string
    requires parts != []
    decreases |parts|
  {
    if |parts| == 1 then parts[0] else parts[0] + [d] + JoinWith(parts[1..], d)
  }

  /** `s.split(d)`: the pieces between separators, which joined again by
      the separator give back `s`. */
  function Split(s: string, d: char): (parts: seq<string>)
    ensures |parts| == multiset(s)[d] + 1
    ensures forall k :: 0 <= k < |parts| ==> d !in parts[k]
    ensures JoinWith(parts, d) == s
    decreases |s|
  {
    if d !in s then [s]
    else
      var i := IndexOf(s, d);
      SplitAt(s, i);
      var rest := Split(s[i + 1..], d);
      JoinCons(s[..i], rest, d);
      [s[..i]] + rest
  }

  /** Joining one more part in front. */
  lemma JoinCons(a: string, rest: seq<string>, d: char)
    requires rest != []
    ensures JoinWith([a] + rest, d) == a + [d] + JoinWith(rest, d)
  {
    assert ([a] + rest)[1..] == rest;
  }

  /** `container, model = s.split(':')`: a ValueError unless there are
      exactly two parts. */
  function SplitChoice(s: string): (r: Result<Row>)
    ensures r.Ok? <==> multiset(s)[':'] == 1
    ensures r.Ok? ==> ':' !in r.value.0 && ':' !in r.value.1
    ensures r.Err? ==> r.failure == UnpackError
    ensures r.Ok? ==> s == r.value.0 + ":" + r.value.1
  {
    var parts := Split(s, ':');
    assert |parts| == 2 ==> parts[1..] == [parts[1]];
    if |parts| == 2 then Ok((parts[0], parts[1])) else Err(UnpackError)
  }

  /** `model[0] + ":" + model[1]`, one registry row as a choice. */
  function Label(row: Row): string
  {
    row.0 + ":" + row.1
  }

  /** Splitting a choice label recovers its row exactly when neither part
      contains a colon; otherwise the unpacking raises. */
  lemma LabelSplitRoundTrip(row: Row)
    ensures SplitChoice(Label(row)).Ok? <==> ':' !in row.0 && ':' !in row.1
    ensures ':' !in row.0 && ':' !in row.1 ==> SplitChoice(Label(row)) == Ok(row)
  {
    var (c, repo) := row;
    var s := Label(row);
    assert multiset(s) == multiset(c) + multiset{':'} + multiset(repo);
    if ':' !in c && ':' !in repo {
      assert s == c + [':'] + repo;
      IndexAfter(c, ':', repo);
      assert Split(repo, ':') == [repo];
      assert Split(s, ':') == [c] + Split(repo, ':');
    }
  }

  /** `repoChoice`: one "container:repo" label per registry row, in row order;
      returnModels' exceptions propagate. */
  method RepoChoice(db: ModelRegistry, reachable: bool) returns (r: Result<seq<string>>)
    ensures r.Ok? <==> reachable && db.tableExists
    ensures r.Err? ==> r.failure == if reachable then NoSuchTable else ConnectFailed
    ensures r.Ok? ==> |r.value| == |db.rows|
    ensures r.Ok? ==> forall i :: 0 <= i < |db.rows| ==> r.value[i] == Label(db.rows[i])
  {
    var models := db.ReturnModels(reachable);
    if models.Err? {
      return Err(models.failure);
    }
    var rows := models.value;
    r := Ok(seq(|rows|, i requires 0 <= i < |rows| => Label(rows[i])));
  }

  /** `next(os.walk(target))[1]`: the names of the immediate subdirectories
      of `target`, in listing order; files are not included. os.walk yields
      nothing for a path that is not a directory, so next() raises. */
  function DirWalk(fs: FileSystem, target: string): (r: Result<seq<string>>)
    ensures r.Ok? <==> target in fs.entries
    ensures r.Err? ==> r.failure == StopIteration
    ensures r.Ok? ==> r.value == Filter(SubdirectoryOf(fs, target), fs.entries[target])
    ensures r.Ok? ==> forall i :: 0 <= i < |r.value| ==>
      r.value[i] in fs.entries[target] && Join(target, r.value[i]) in fs.entries
    ensures r.Ok? ==> forall i :: 0 <= i < |fs.entries[target]| && Join(target, fs.entries[target][i]) in fs.entries ==>
      fs.entries[target][i] in r.value
  {
    if target in fs.entries then Ok(Filter(SubdirectoryOf(fs, target), fs.entries[target]))
    else Err(StopIteration)
  }

  /** Whether a name listed in `dir` is itself a directory. */
  function SubdirectoryOf(fs: FileSystem, dir: string): string -> bool
  {
    n => Join(dir, n) in fs.entries
  }

  datatype Confirmation = Proceed | Abort

  /** `abort_if_false`: the `--yes` callback aborts exactly when the answer is no. */
  function AbortIfFalse(value: bool): (r: Confirmation)
    ensures r == Abort <==> !value
  {
    if !value then Abort else Proceed
  }

  /** Entering `with changeDirectory(newdir)`: remember the working directory
      and switch to `newdir`. A failing chdir raises before the `try`, with the
      working directory untouched. */
  method EnterDirectory(host: Host, newdir: string) returns (saved: Result<string>)
    modifies host`cwd
    ensures saved.Ok? <==> newdir in host.fs.entries
    ensures saved.Ok? ==> saved.value == old(host.cwd) && host.cwd == newdir
    ensures saved.Err? ==> saved.failure == OsError(newdir) && host.cwd == old(host.cwd)
  {
    if newdir !in host.fs.entries {
      return Err(OsError(newdir));
    }
    saved := Ok(host.cwd);
    host.cwd := newdir;
  }

  /** The `finally` of changeDirectory: go back to the remembered directory,
      whatever way the body ended. */
  method LeaveDirectory(host: Host, saved: string)
    modifies host`cwd
    ensures host.cwd == saved
  {
    host.cwd := saved;
  }

  /** `modelChoice`: make sure `models` exists under the working directory
      (an existing one is fine), then list its subdirectories. */
  method ModelChoice(host: Host) returns (r: Result<seq<string>>)
    modifies host`fs
    ensures host.fs == MakeDirectory(old(host.fs), host.cwd, "models")
    ensures Join(host.cwd, "models") in old(host.fs.entries) ==> host.fs == old(host.fs)
    ensures Join(host.cwd, "models") !in old(host.fs.modes) ==> r.Ok?
    ensures r == DirWalk(host.fs, Join(host.cwd, "models"))
  {
    host.fs := MakeDirectory(host.fs, host.cwd, "models");
    r := DirWalk(host.fs, Join(host.cwd, "models"));
  }

  /** The image names the Docker client's image reprs quote, in order. */
  function ExtractAll(reprs: seq<string>): (names: seq<string>)
    decreases |reprs|
  {
    if reprs == [] then [] else StringExtract(reprs[0]) + ExtractAll(reprs[1..])
  }

  /** An image pushed to the cloud registry. */
  predicate IsRegistryImage(name: string)
  {
    Contains(name, "amazonaws")
  }

  /** `listdocker`: extend a list with the quoted names of every image, then
      keep those containing `amazonaws`. The Docker client's image list is
      given as the `str()` of each image. */
  method ListDocker(reprs: seq<string>) returns (images: seq<string>)
    ensures images == Filter(IsRegistryImage, ExtractAll(reprs))
  {
    var names: seq<string> := [];
    var i := 0;
    while i < |reprs|
      invariant 0 <= i <= |reprs|
      invariant names + ExtractAll(reprs[i..]) == ExtractAll(reprs)
    {
      assert reprs[i..][1..] == reprs[i + 1..];
      var found := StringExtract(reprs[i]);
      assert ExtractAll(reprs[i..]) == found + ExtractAll(reprs[i + 1..]);
      ConcatAssoc(names, found, ExtractAll(reprs[i + 1..]));
      names := names + found;
      i := i + 1;
    }
    assert reprs[i..] == [];
    assert names + [] == names;
    images := Filter(IsRegistryImage, names);
  }

  /** The listing of several image batches is the listings one after the other. */
  lemma {:induction false} ExtractAllConcat(a: seq<string>, b: seq<string>)
    ensures ExtractAll(a + b) == ExtractAll(a) + ExtractAll(b)
    decreases |a|
  {
    if a == [] {
      assert a + b == b;
    } else {
      assert (a + b)[0] == a[0];
      assert (a + b)[1..] == a[1..] + b;
      ExtractAllConcat(a[1..], b);
    }
  }

  /** listdocker shows exactly the extracted names containing `amazonaws`,
      none of which holds a quote, and keeps the order of the image list. */
  lemma ListDockerExact(a: seq<string>, b: seq<string>, name: string)
    ensures name in Filter(IsRegistryImage, ExtractAll(a)) <==> name in ExtractAll(a) && IsRegistryImage(name)
    ensures name in ExtractAll(a) ==> Quote !in name
    ensures Filter(IsRegistryImage, ExtractAll(a + b))
         == Filter(IsRegistryImage, ExtractAll(a)) + Filter(IsRegistryImage, ExtractAll(b))
  {
    ExtractAllConcat(a, b);
    FilterConcat(IsRegistryImage, ExtractAll(a), ExtractAll(b));
    ExtractAllQuoteFree(a, name);
    var f := Filter(IsRegistryImage, ExtractAll(a));
    if name in f {
      var i :| 0 <= i < |f| && f[i] == name;
    }
    if name in ExtractAll(a) {
      var i :| 0 <= i < |ExtractAll(a)| && ExtractAll(a)[i] == name;
    }
  }

  lemma {:induction false} ExtractAllQuoteFree(a: seq<string>, name: string)
    ensures name in ExtractAll(a) ==> Quote !in name
    decreases |a|
  {
    if a != [] {
      ExtractAllQuoteFree(a[1..], name);
      var last := StringExtract(a[0]);
      if name in last {
        var k :| 0 <= k < |last| && last[k] == name;
      }
    }
  }
}
