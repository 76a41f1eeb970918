/**
 pkg/ebpf/include_headers.go: inlining of `#include "..."` lines. Processor.Run ends on every
 finite file system, cyclic includes included, and emits each reachable file once, before its use.
 */
module IncludeHeaders {
  import opened Wrappers

  datatype Path = Path(name: string)

  /** A line after matching the include regular expression. */
  datatype Line = Plain(text: string) | Include(header: string)

  /**
   `files` are the paths that can be opened, `locked` the paths that exist but cannot.
   `dirOf` and `join` stand for filepath.Dir and filepath.Join.
   */
  datatype Env = Env(
    files: map<Path, seq<Line>>,
    locked: set<Path>,
    includeDirs: seq<Path>,
    dirOf: Path -> Path,
    join: (Path, string) -> Path)
  {
    predicate Exists(p: Path) {
      p in files || p in locked
    }

    /** The first directory that has the header. */
    function FirstIn(dirs: seq<Path>, header: string): Option<Path> {
      if dirs == [] then None
      else if Exists(join(dirs[0], header)) then Some(join(dirs[0], header))
      else FirstIn(dirs[1..], header)
    }

    /** The directory of the including file comes first. */
    function Resolve(p: Path, header: string): Option<Path> {
      FirstIn([dirOf(p)] + includeDirs, header)
    }

    lemma ResolvedExists(p: Path, header: string)
      ensures var r := Resolve(p, header); r.Some? ==> Exists(r.value)
    {
      FirstInExists([dirOf(p)] + includeDirs, header);
    }

    lemma {:induction false} FirstInExists(dirs: seq<Path>, header: string)
      ensures FirstIn(dirs, header).Some? ==> Exists(FirstIn(dirs, header).value)
    {
      if dirs != [] {
        FirstInExists(dirs[1..], header);
      }
    }

    /** The header lies in the k-th include directory and in none before it. */
    predicate FirstAt(header: string, k: nat) {
      && k < |includeDirs| && (join(includeDirs[k], header) in files || join(includeDirs[k], header) in locked)
      && forall j :: 0 <= j < k ==> join(includeDirs[j], header) !in files && join(includeDirs[j], header) !in locked
    }

    lemma {:induction false} FirstInAt(dirs: seq<Path>, header: string)
      ensures FirstIn(dirs, header).None? <==> forall j :: 0 <= j < |dirs| ==> !Exists(join(dirs[j], header))
      ensures forall k :: 0 <= k < |dirs| && Exists(join(dirs[k], header)) && (forall j :: 0 <= j < k ==> !Exists(join(dirs[j], header))) ==>
                FirstIn(dirs, header) == Some(join(dirs[k], header))
    {
      if dirs != [] {
        FirstInAt(dirs[1..], header);
        assert forall j :: 0 < j < |dirs| ==> dirs[j] == dirs[1..][j - 1];
      }
    }

    /** The directory of the including file has precedence over the include directories, and these over later ones. */
    lemma ResolvedAt(src: Path, header: string)
      ensures var own, r := join(dirOf(src), header), Resolve(src, header);
              && (own in files || own in locked ==> r == Some(own))
              && (own !in files && own !in locked ==>
                    && (forall k: nat :: FirstAt(header, k) ==> r == Some(join(includeDirs[k], header)))
                    && ((forall k: nat :: !FirstAt(header, k)) ==> r == None))
    {
      var own, dirs := join(dirOf(src), header), [dirOf(src)] + includeDirs;
      FirstInAt(dirs[1..], header);
      assert dirs[1..] == includeDirs;
      if forall k: nat :: !FirstAt(header, k) {
        LeastDir(header, |includeDirs|);
      }
    }

    lemma {:induction false} LeastDir(header: string, n: nat)
      requires n <= |includeDirs| && forall k: nat :: !FirstAt(header, k)
      ensures forall j :: 0 <= j < n ==> !Exists(join(includeDirs[j], header))
    {
      if n > 0 {
        LeastDir(header, n - 1);
        assert !FirstAt(header, n - 1);
      }
    }

    predicate IsLine(p: Path, i: nat) {
      p in files && i < |files[p]|
    }

    predicate OwnLine(p: Path, i: nat) {
      IsLine(p, i) && files[p][i].Plain?
    }

    predicate IncludesAt(p: Path, i: nat, q: Path) {
      IsLine(p, i) && files[p][i].Include? && Resolve(p, files[p][i].header) == Some(q)
    }

    ghost predicate Leads(p: Path, q: Path) {
      exists i: nat :: IncludesAt(p, i, q)
    }

    /** The file can be opened and all its headers are found. */
    ghost predicate Good(p: Path) {
      p in files && forall i: nat {:trigger IsLine(p, i)} :: IsLine(p, i) && files[p][i].Include? ==> Resolve(p, files[p][i].header).Some?
    }

    ghost predicate Closed(s: set<Path>) {
      forall p, q {:trigger Leads(p, q)} :: p in s && Leads(p, q) ==> q in s
    }

    ghost predicate Reaches(p: Path, q: Path) {
      forall s: set<Path> {:trigger Closed(s)} :: p in s && Closed(s) ==> q in s
    }

    lemma ReachesMore(p: Path, q: Path, r: Path)
      requires Reaches(p, q) && Leads(q, r)
      ensures Reaches(p, r)
    {}

    lemma ReachesAll(p: Path, q: Path, r: Path)
      requires Reaches(p, q) && Reaches(q, r)
      ensures Reaches(p, r)
    {}
  }

  /** Where an output line comes from: a file and a line number. */
  datatype Origin = Origin(path: Path, line: nat)

  // ----- the output so far -----

  /** Every own line of the file is in the output, and its headers are found and included. */
  ghost predicate Done(env: Env, included: set<Path>, log: seq<Origin>, p: Path) {
    && env.Good(p)
    && (forall i: nat {:trigger env.OwnLine(p, i)} :: env.OwnLine(p, i) ==> Origin(p, i) in log)
    && (forall q {:trigger env.Leads(p, q)} :: env.Leads(p, q) ==> q in included)
  }

  /** Nothing is emitted twice, and only own lines of included files are. */
  ghost predicate Once(env: Env, included: set<Path>, log: seq<Origin>) {
    && (forall a, b :: 0 <= a < b < |log| ==> log[a] != log[b])
    && (forall o :: o in log ==> o.path in included && env.OwnLine(o.path, o.line))
  }

  /** The output of a header is complete before any line after its include, unless the header leads back. */
  ghost predicate BeforeUse(env: Env, log: seq<Origin>, n: nat)
    requires n < |log|
  {
    forall i: nat, q: Path, j: nat {:trigger env.IncludesAt(log[n].path, i, q), env.OwnLine(q, j)} ::
      i < log[n].line && env.IncludesAt(log[n].path, i, q) && !env.Reaches(q, log[n].path) && env.OwnLine(q, j) ==>
        Origin(q, j) in log[..n]
  }

  ghost predicate InOrder(env: Env, log: seq<Origin>) {
    && (forall n {:trigger BeforeUse(env, log, n)} :: 0 <= n < |log| ==> BeforeUse(env, log, n))
    && (forall a, b :: 0 <= a < b < |log| && log[a].path == log[b].path ==> log[a].line < log[b].line)
  }

  /** `open` are the files whose processing has started but not ended. */
  ghost predicate Inv(env: Env, included: set<Path>, log: seq<Origin>, open: set<Path>) {
    && open <= included && Once(env, included, log) && InOrder(env, log)
    && forall p :: p in included && p !in open ==> Done(env, included, log, p)
  }

  function TextOf(env: Env, o: Origin): string {
    if env.OwnLine(o.path, o.line) then env.files[o.path][o.line].text else ""
  }

  function Render(env: Env, log: seq<Origin>): seq<string> {
    seq(|log|, n requires 0 <= n < |log| => TextOf(env, log[n]))
  }

  /** The first i lines of an open file have been dealt with. */
  ghost predicate Scanned(env: Env, included: set<Path>, log: seq<Origin>, p: Path, i: nat) {
    && (forall o :: o in log && o.path == p ==> o.line < i)
    && (forall j: nat {:trigger env.OwnLine(p, j)} :: j < i && env.OwnLine(p, j) ==> Origin(p, j) in log)
    && (forall h: nat, q {:trigger env.IncludesAt(p, h, q)} :: h < i && env.IncludesAt(p, h, q) ==> q in included)
    && (forall h: nat {:trigger env.IsLine(p, h)} ::
          h < i && env.IsLine(p, h) && env.files[p][h].Include? ==> env.Resolve(p, env.files[p][h].header).Some?)
  }

  lemma ScannedIsDone(env: Env, included: set<Path>, log: seq<Origin>, p: Path)
    requires p in env.files && Scanned(env, included, log, p, |env.files[p]|)
    ensures Done(env, included, log, p)
  {}

  /** Emitting the next own line of an open file. */
  lemma EmitLine(env: Env, included: set<Path>, log: seq<Origin>, open: set<Path>, p: Path, i: nat)
    requires Inv(env, included, log, open) && p in open && env.OwnLine(p, i)
    requires Scanned(env, included, log, p, i) && forall q :: q in open ==> env.Reaches(q, p)
    ensures Inv(env, included, log + [Origin(p, i)], open) && Scanned(env, included, log + [Origin(p, i)], p, i + 1)
    ensures Render(env, log + [Origin(p, i)]) == Render(env, log) + [env.files[p][i].text]
  {
    var log' := log + [Origin(p, i)];
    assert Origin(p, i) !in log;
    assert forall o :: o in log' <==> o in log || o == Origin(p, i);
    forall n | 0 <= n < |log'|
      ensures BeforeUse(env, log', n)
    {
      if n < |log| {
        assert BeforeUse(env, log, n);
        assert log'[..n] == log[..n];
      } else {
        assert log'[..n] == log;
      }
    }
    forall q | q in included && q !in open
      ensures Done(env, included, log', q)
    {
      assert Done(env, included, log, q);
    }
  }

  lemma OpenFile(env: Env, included: set<Path>, log: seq<Origin>, open: set<Path>, p: Path)
    requires Inv(env, included, log, open) && p !in included
    ensures Inv(env, included + {p}, log, open + {p})
  {
    forall q | q in included + {p} && q !in open + {p}
      ensures Done(env, included + {p}, log, q)
    {
      assert Done(env, included, log, q);
    }
  }

  lemma CloseFile(env: Env, included: set<Path>, log: seq<Origin>, open: set<Path>, p: Path)
    requires p !in open && Inv(env, included, log, open + {p}) && Done(env, included, log, p)
    ensures Inv(env, included, log, open)
  {}

  /** The files being processed all lead to the next header. */
  lemma Descend(env: Env, open: set<Path>, p: Path, q: Path)
    requires p in open && env.Leads(p, q) && forall o :: o in open ==> env.Reaches(o, p)
    ensures forall o :: o in open ==> env.Reaches(o, q)
  {
    forall o | o in open {
      env.ReachesMore(o, p, q);
    }
  }

  lemma ReachesFrom(env: Env, p: Path, q: Path)
    requires env.Leads(p, q)
    ensures forall r :: env.Reaches(q, r) ==> env.Reaches(p, r)
  {
    forall r | env.Reaches(q, r)
      ensures env.Reaches(p, r)
    {
      env.ReachesMore(p, p, q);
      env.ReachesAll(p, q, r);
    }
  }

  /** What processing `path` may do: include files it reaches, and append lines of these only. */
  ghost predicate Grown(env: Env, path: Path, included: set<Path>, log: seq<Origin>, included': set<Path>, log': seq<Origin>) {
    && included <= included' && log <= log'
    && (forall p :: p in included' && p !in included ==> env.Reaches(path, p))
    && (forall n :: |log| <= n < |log'| ==> log'[n].path !in included)
  }

  /** One of the includes above line i leads to q. */
  ghost predicate FromAbove(env: Env, p: Path, i: nat, q: Path) {
    exists h: nat, r :: h < i && env.IncludesAt(p, h, r) && env.Reaches(r, q)
  }

  /** Since `start`, before the line i of p, nothing came but lines of p and what its includes above line i lead to. */
  ghost predicate Since(env: Env, log: seq<Origin>, start: nat, p: Path, i: nat) {
    forall m :: start <= m < |log| ==> log[m].path == p || FromAbove(env, p, i, log[m].path)
  }

  /** So it was before each line of p that has come since. */
  ghost predicate Above(env: Env, log: seq<Origin>, start: nat, p: Path) {
    forall m, n :: start <= m < n < |log| && log[n].path == p ==> log[m].path == p || FromAbove(env, p, log[n].line, log[m].path)
  }

  lemma FromAboveMore(env: Env, p: Path, i: nat)
    ensures forall q :: FromAbove(env, p, i, q) ==> FromAbove(env, p, i + 1, q)
  {
    forall q | FromAbove(env, p, i, q)
      ensures FromAbove(env, p, i + 1, q)
    {
      var h: nat, r :| h < i && env.IncludesAt(p, h, r) && env.Reaches(r, q);
      assert h < i + 1;
    }
  }

  lemma EmitAbove(env: Env, log: seq<Origin>, start: nat, p: Path, i: nat)
    requires Since(env, log, start, p, i) && Above(env, log, start, p)
    ensures Since(env, log + [Origin(p, i)], start, p, i + 1) && Above(env, log + [Origin(p, i)], start, p)
  {
    FromAboveMore(env, p, i);
  }

  lemma HeaderAbove(env: Env, log: seq<Origin>, log': seq<Origin>, start: nat, p: Path, i: nat, q: Path,
                    included: set<Path>, included': set<Path>)
    requires Since(env, log, start, p, i) && Above(env, log, start, p) && env.IncludesAt(p, i, q) && p in included
    requires Grown(env, q, included, log, included', log') && forall o :: o in log' ==> o.path in included'
    ensures Since(env, log', start, p, i + 1) && Above(env, log', start, p)
  {
    FromAboveMore(env, p, i);
    forall m | |log| <= m < |log'|
      ensures FromAbove(env, p, i + 1, log'[m].path)
    {
      assert log'[m] in log' && env.Reaches(q, log'[m].path);
    }
  }

  /** After the header of line i was processed. */
  lemma HeaderDone(env: Env, path: Path, q: Path, i: nat, included0: set<Path>, log0: seq<Origin>,
                   included: set<Path>, log: seq<Origin>, included': set<Path>, log': seq<Origin>)
    requires Grown(env, path, included0, log0, included, log) && path in included && Scanned(env, included, log, path, i)
    requires env.IncludesAt(path, i, q) && Grown(env, q, included, log, included', log')
    ensures Grown(env, path, included0, log0, included', log')
    ensures q in included' ==> Scanned(env, included', log', path, i + 1)
    ensures forall p :: env.Reaches(q, p) ==> env.Reaches(path, p)
  {
    assert env.Leads(path, q);
    ReachesFrom(env, path, q);
    assert forall o :: o in log' && o.path == path ==> o in log;
  }

  lemma LineDone(env: Env, path: Path, i: nat, included0: set<Path>, log0: seq<Origin>, included: set<Path>, log: seq<Origin>)
    requires Grown(env, path, included0, log0, included, log) && path !in included0
    ensures Grown(env, path, included0, log0, included, log + [Origin(path, i)])
  {}

  class Processor {
    const env: Env
    var includedFiles: set<Path>
    var out: seq<string>
    ghost var log: seq<Origin>

    constructor (env: Env)
      ensures this.env == env && includedFiles == {} && out == [] && log == []
    {
      this.env := env;
      includedFiles, out, log := {}, [], [];
    }

    ghost predicate Valid(open: set<Path>)
      reads this
    {
      Inv(env, includedFiles, log, open) && out == Render(env, log)
    }

    method FindInclude(srcPath: Path, headerName: string) returns (r: Option<Path>)
      ensures r == env.Resolve(srcPath, headerName)
      ensures var own := env.join(env.dirOf(srcPath), headerName);
              && (own in env.files || own in env.locked ==> r == Some(own))
              && (own !in env.files && own !in env.locked ==>
                    && (forall k: nat :: env.FirstAt(headerName, k) ==> r == Some(env.join(env.includeDirs[k], headerName)))
                    && ((forall k: nat :: !env.FirstAt(headerName, k)) ==> r == None))
    {
      env.ResolvedAt(srcPath, headerName);
      var allDirs := [env.dirOf(srcPath)] + env.includeDirs;
      for n := 0 to |allDirs|
        invariant env.FirstIn(allDirs, headerName) == env.FirstIn(allDirs[n..], headerName)
      {
        var p := env.join(allDirs[n], headerName);
        if env.Exists(p) {
          return Some(p);
        }
      }
      return None;
    }

    /** The files that are still to be included; the root need not exist. */
    ghost function Left(root: Path): set<Path>
      reads this
    {
      env.files.Keys + env.locked + {root} - includedFiles
    }

    method ProcessIncludes(path: Path, ghost root: Path, ghost open: set<Path>) returns (ok: bool)
      requires Valid(open) && (path == root || env.Exists(path))
      requires forall p :: p in open ==> env.Reaches(p, path)
      modifies this
      ensures ok ==> Valid(open) && path in includedFiles
      ensures !ok ==> exists p :: env.Reaches(path, p) && !env.Good(p)
      ensures Grown(env, path, old(includedFiles), old(log), includedFiles, log)
      ensures ok && path !in old(includedFiles) ==> Above(env, log, |old(log)|, path)
      decreases Left(root), 0
    {
      if path in includedFiles {
        return true;
      }
      OpenFile(env, includedFiles, log, open, path);
      includedFiles := includedFiles + {path};
      assert Left(root) < old(Left(root)) by {
        assert path in old(Left(root)) && path !in Left(root);
      }
      if path !in env.files {
        assert env.Reaches(path, path) && !env.Good(path);
        return false;
      }
      ok := ProcessLines(path, root, open, old(includedFiles), old(log));
    }

    /** The scanner loop of `processIncludes`, with the file open. */
    method ProcessLines(path: Path, ghost root: Path, ghost open: set<Path>, ghost included0: set<Path>, ghost log0: seq<Origin>)
      returns (ok: bool)
      requires path in env.files && path !in open && Valid(open + {path}) && path !in included0
      requires forall p :: p in open ==> env.Reaches(p, path)
      requires includedFiles == included0 + {path} && log == log0 && Once(env, included0, log0)
      modifies this
      ensures ok ==> Valid(open) && path in includedFiles
      ensures !ok ==> exists p :: env.Reaches(path, p) && !env.Good(p)
      ensures Grown(env, path, included0, log0, includedFiles, log)
      ensures ok ==> Above(env, log, |log0|, path)
      decreases Left(root), 2
    {
      var lines := env.files[path];
      ghost var open' := open + {path};
      for i := 0 to |lines|
        invariant Valid(open') && path in includedFiles && Left(root) <= old(Left(root))
        invariant Grown(env, path, included0, log0, includedFiles, log)
        invariant Scanned(env, includedFiles, log, path, i)
        invariant Since(env, log, |log0|, path, i) && Above(env, log, |log0|, path)
      {
        match lines[i]
        case Include(headerName) =>
          ok := ProcessHeader(path, i, root, open', included0, log0);
          if !ok {
            return;
          }
        case Plain(text) =>
          EmitLine(env, includedFiles, log, open', path, i);
          LineDone(env, path, i, included0, log0, includedFiles, log);
          EmitAbove(env, log, |log0|, path, i);
          out := out + [text];
          log := log + [Origin(path, i)];
      }
      ScannedIsDone(env, includedFiles, log, path);
      CloseFile(env, includedFiles, log, open, path);
      return true;
    }

    /** One include line. */
    method ProcessHeader(path: Path, i: nat, ghost root: Path, ghost open: set<Path>, ghost included0: set<Path>, ghost log0: seq<Origin>)
      returns (ok: bool)
      requires env.IsLine(path, i) && env.files[path][i].Include? && path in open && Valid(open)
      requires forall p :: p in open ==> env.Reaches(p, path)
      requires Grown(env, path, included0, log0, includedFiles, log) && Scanned(env, includedFiles, log, path, i)
      requires Since(env, log, |log0|, path, i) && Above(env, log, |log0|, path)
      modifies this
      ensures ok ==> Valid(open) && path in includedFiles && Scanned(env, includedFiles, log, path, i + 1)
      ensures !ok ==> exists p :: env.Reaches(path, p) && !env.Good(p)
      ensures Grown(env, path, included0, log0, includedFiles, log) && Left(root) <= old(Left(root))
      ensures ok ==> Since(env, log, |log0|, path, i + 1) && Above(env, log, |log0|, path)
      decreases Left(root), 1
    {
      var found := FindInclude(path, env.files[path][i].header);
      if found.None? {
        assert env.Reaches(path, path) && !env.Good(path);
        return false;
      }
      env.ResolvedExists(path, env.files[path][i].header);
      var headerPath := found.value;
      assert env.IncludesAt(path, i, headerPath);
      Descend(env, open, path, headerPath);
      ghost var included, lines := includedFiles, log;
      ok := ProcessIncludes(headerPath, root, open);
      HeaderDone(env, path, headerPath, i, included0, log0, included, lines, includedFiles, log);
      if ok {
        HeaderAbove(env, lines, log, |log0|, path, i, headerPath, included, includedFiles);
      }
    }

    /** The whole of `runProcessing`, on a fresh processor. */
    method Run(root: Path) returns (ok: bool)
      requires includedFiles == {} && log == [] && out == []
      modifies this
      ensures ok <==> forall p :: env.Reaches(root, p) ==> env.Good(p)
      ensures ok ==> forall p :: p in includedFiles <==> env.Reaches(root, p)
      ensures ok ==> out == Render(env, log) && InOrder(env, log)
      ensures ok ==> forall p, i: nat :: env.Reaches(root, p) && env.OwnLine(p, i) ==> Origin(p, i) in log
      ensures ok ==> forall a, b :: 0 <= a < b < |log| ==> log[a] != log[b]
      ensures ok ==> forall o :: o in log ==> env.Reaches(root, o.path) && env.OwnLine(o.path, o.line)
      ensures ok ==> |out| == |log| && forall n :: 0 <= n < |log| ==>
                log[n].path in env.files && log[n].line < |env.files[log[n].path]| && env.files[log[n].path][log[n].line] == Plain(out[n])
      ensures ok ==> Above(env, log, 0, root)
    {
      ok := ProcessIncludes(root, root, {});
      if ok {
        IncludedIsReach(env, includedFiles, log, root);
        assert forall n :: 0 <= n < |log| ==> log[n] in log;
      }
    }
  }

  lemma IncludedIsReach(env: Env, included: set<Path>, log: seq<Origin>, root: Path)
    requires Inv(env, included, log, {}) && root in included
    requires forall p :: p in included ==> env.Reaches(root, p)
    ensures forall p :: p in included <==> env.Reaches(root, p)
    ensures forall p :: env.Reaches(root, p) ==> env.Good(p)
    ensures forall p, i: nat :: env.Reaches(root, p) && env.OwnLine(p, i) ==> Origin(p, i) in log
  {
    assert forall p :: p in included ==> Done(env, included, log, p);
    assert env.Closed(included);
  }
}
