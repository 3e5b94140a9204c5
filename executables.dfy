/**
 * Locating the layout program: the case-insensitive lookup of the `PATH`
 * variable, Java's `String.split` of its value, and the first-match search
 * over `dir/prog`, `dir/prog.exe` for each directory in order. The process
 * environment and the file system are inputs.
 */
module Executables {
  import opened Wrappers
  import opened Enumerations

  /** The exceptions the engine throws. */
  datatype EngineError =
    | IllegalState(message: string)        // java.lang.IllegalStateException
    | EngineException(message: string)     // GraphvizEngineException

  const PathName := "PATH"
  /** `File.pathSeparator` and `File.separator` on a POSIX host. */
  const PathSeparator := ':'
  const FileSeparator := "/"

  const PathNotFound := EngineException("Path environment variable not found")

  function ProgramNotFound(prog: string): EngineError
  {
    EngineException(prog + " program not found.")
  }

  /** Upper-case form of an ASCII letter; every other character is left alone. */
  function UpperChar(c: char): char
  {
    if 'a' <= c <= 'z' then (c as int - 32) as char else c
  }

  /** `String.equalsIgnoreCase`, restricted to ASCII case folding. */
  predicate EqualsIgnoreCase(a: string, b: string)
  {
    |a| == |b| && forall i :: 0 <= i < |a| ==> UpperChar(a[i]) == UpperChar(b[i])
  }

  function Upper(s: string): (r: string)
    ensures |r| == |s|
    ensures forall i :: 0 <= i < |s| ==> r[i] == UpperChar(s[i])
  {
    if s == [] then [] else [UpperChar(s[0])] + Upper(s[1..])
  }

  /** Two strings are equal ignoring case exactly when their upper-case forms are equal. */
  lemma EqualsIgnoreCaseUpper(a: string, b: string)
    ensures EqualsIgnoreCase(a, b) <==> Upper(a) == Upper(b)
  {
    if Upper(a) == Upper(b) {
      assert forall i :: 0 <= i < |a| ==> Upper(a)[i] == Upper(b)[i];
    }
  }

  /** The environment keys `pathEnvName` accepts are exactly the spellings of `PATH` in any case. */
  lemma PathKeySpellings(k: string)
    ensures EqualsIgnoreCase(k, PathName) <==> Upper(k) == PathName
  {
    EqualsIgnoreCaseUpper(k, PathName);
    assert Upper(PathName) == PathName;
  }

  /**
   * `pathEnvName`: walks the environment's keys in the map's own order and
   * returns the first one equal to `PATH` ignoring case. `walk` records the
   * keys looked at, ending with the one returned.
   */
  method PathEnvName(env: map<string, string>) returns (r: Result<string, EngineError>, ghost walk: seq<string>)
    ensures r.Ok? ==> r.value in env && EqualsIgnoreCase(r.value, PathName)
    ensures r.Ok? ==>
      && |walk| > 0 && walk[|walk| - 1] == r.value
      && (exists rest :: Enumerating(walk, rest, env.Keys))
      && forall i :: 0 <= i < |walk| - 1 ==> !EqualsIgnoreCase(walk[i], PathName)
    ensures r.Err? <==> forall k :: k in env ==> !EqualsIgnoreCase(k, PathName)
    ensures r.Err? ==> r.error == PathNotFound && IsEnumeration(walk, env.Keys)
  {
    var remaining := env.Keys;
    walk := [];
    while remaining != {}
      invariant Enumerating(walk, remaining, env.Keys)
      invariant forall i :: 0 <= i < |walk| ==> !EqualsIgnoreCase(walk[i], PathName)
      decreases remaining
    {
      var k :| k in remaining;
      EnumerationStep(walk, remaining, env.Keys, k);
      walk := walk + [k];
      remaining := remaining - {k};
      if EqualsIgnoreCase(k, PathName) {
        return Ok(k), walk;
      }
    }
    EnumerationDone(walk, env.Keys);
    r := Err(PathNotFound);
  }

  /** The pieces of `s` between separators, empty ones included: one more piece than separators. */
  function Fields(s: string, sep: char): (r: seq<string>)
    ensures |r| > 0
    ensures forall i :: 0 <= i < |r| ==> sep !in r[i]
  {
    if s == [] then [""]
    else
      var rest := Fields(s[1..], sep);
      if s[0] == sep then [""] + rest else [[s[0]] + rest[0]] + rest[1..]
  }

  /** The pieces glued back together, one separator between neighbours. */
  function Join(parts: seq<string>, sep: char): string
  {
    if parts == [] then ""
    else if |parts| == 1 then parts[0]
    else parts[0] + [sep] + Join(parts[1..], sep)
  }

  /** Splitting and re-joining gives back the original text. */
  lemma {:induction false} JoinFields(s: string, sep: char)
    ensures Join(Fields(s, sep), sep) == s
  {
    if s != [] {
      var rest := Fields(s[1..], sep);
      JoinFields(s[1..], sep);
      if s[0] == sep {
        assert Fields(s, sep) == [""] + rest;
        assert ([""] + rest)[1..] == rest;
      } else {
        var parts := [[s[0]] + rest[0]] + rest[1..];
        if |rest| == 1 {
          assert Join(rest, sep) == rest[0];
        } else {
          assert parts[1..] == rest[1..];
          assert Join(rest, sep) == rest[0] + [sep] + Join(rest[1..], sep);
        }
        assert s == [s[0]] + s[1..];
      }
    }
  }

  /** `parts` without its trailing run of empty strings. */
  function DropTrailingEmpty(parts: seq<string>): (r: seq<string>)
    ensures |r| <= |parts| && r == parts[..|r|]
    ensures forall i :: |r| <= i < |parts| ==> parts[i] == ""
    ensures r == [] || r[|r| - 1] != ""
  {
    if parts == [] || parts[|parts| - 1] != "" then parts
    else DropTrailingEmpty(parts[..|parts| - 1])
  }

  /**
   * Java's `s.split(sep)` for a one-character separator: with no separator
   * in `s` the result is `s` alone (even when `s` is empty); otherwise the
   * fields with trailing empty ones removed.
   */
  function JavaSplit(s: string, sep: char): (r: seq<string>)
    ensures forall i :: 0 <= i < |r| ==> sep !in r[i]
    ensures sep !in s ==> r == [s]
    ensures sep in s ==>
      && |r| <= |Fields(s, sep)| && r == Fields(s, sep)[..|r|]
      && (forall i :: |r| <= i < |Fields(s, sep)| ==> Fields(s, sep)[i] == "")
      && (r == [] || r[|r| - 1] != "")
  {
    if sep !in s then [s] else DropTrailingEmpty(Fields(s, sep))
  }

  /** `dir/prog` */
  function Plain(dir: string, prog: string): string
  {
    dir + FileSeparator + prog
  }

  /** `dir/prog.exe` */
  function WithExe(dir: string, prog: string): string
  {
    dir + FileSeparator + prog + ".exe"
  }

  /** The files `findExecutable` tries, in order: `dir/prog`, then `dir/prog.exe`, for each directory. */
  function Candidates(dirs: seq<string>, prog: string): (r: seq<string>)
    ensures |r| == 2 * |dirs|
    ensures forall i :: 0 <= i < |dirs| ==> r[2 * i] == Plain(dirs[i], prog) && r[2 * i + 1] == WithExe(dirs[i], prog)
  {
    if dirs == [] then []
    else Candidates(dirs[..|dirs| - 1], prog) + [Plain(dirs[|dirs| - 1], prog), WithExe(dirs[|dirs| - 1], prog)]
  }

  /** What the code asks of the file system: `canExecute` and `isDirectory`, as sets of paths. */
  datatype FileSystem = FileSystem(executables: set<string>, directories: set<string>)

  /** `canExecute() && !isDirectory()` */
  predicate Runnable(fs: FileSystem, file: string)
  {
    file in fs.executables && file !in fs.directories
  }

  /** The first runnable file of `files`, if any. */
  function FirstRunnable(fs: FileSystem, files: seq<string>): (r: Option<string>)
    ensures r.None? <==> forall i :: 0 <= i < |files| ==> !Runnable(fs, files[i])
    ensures r.Some? ==> exists i :: (0 <= i < |files| && files[i] == r.value && Runnable(fs, files[i])
      && forall j :: 0 <= j < i ==> !Runnable(fs, files[j]))
  {
    if files == [] then None
    else if Runnable(fs, files[0]) then Some(files[0])
    else
      var r := FirstRunnable(fs, files[1..]);
      assert r.Some? ==> exists i :: (0 <= i < |files| && files[i] == r.value && Runnable(fs, files[i])
        && forall j :: 0 <= j < i ==> !Runnable(fs, files[j])) by {
        if r.Some? {
          var i :| 0 <= i < |files| - 1 && files[1..][i] == r.value && Runnable(fs, files[1..][i])
            && forall j :: 0 <= j < i ==> !Runnable(fs, files[1..][j]);
          assert files[i + 1] == r.value;
          assert forall j :: 1 <= j < i + 1 ==> files[j] == files[1..][j - 1];
        }
      }
      r
  }

  /** A runnable file with nothing runnable before it is the one found. */
  lemma FirstRunnableAt(fs: FileSystem, files: seq<string>, i: nat)
    requires i < |files| && Runnable(fs, files[i])
    requires forall j :: 0 <= j < i ==> !Runnable(fs, files[j])
    ensures FirstRunnable(fs, files) == Some(files[i])
  {
    var r := FirstRunnable(fs, files);
    var k :| 0 <= k < |files| && files[k] == r.value && Runnable(fs, files[k])
      && forall j :: 0 <= j < k ==> !Runnable(fs, files[j]);
    assert k == i;
  }

  /** The result of searching the directories `dirs` for `prog`. */
  function Search(dirs: seq<string>, prog: string, fs: FileSystem): Result<string, EngineError>
  {
    match FirstRunnable(fs, Candidates(dirs, prog))
    case Some(file) => Ok(file)
    case None => Err(ProgramNotFound(prog))
  }

  /** A program runnable in exactly one place along the path is found there, as `dir/prog`. */
  lemma SearchSoleDirectory(dirs: seq<string>, prog: string, fs: FileSystem, i: nat)
    requires i < |dirs| && Runnable(fs, Plain(dirs[i], prog))
    requires forall c :: c in Candidates(dirs, prog) && Runnable(fs, c) ==> c == Plain(dirs[i], prog)
    ensures Search(dirs, prog, fs) == Ok(Plain(dirs[i], prog))
  {
    var cs := Candidates(dirs, prog);
    assert cs[2 * i] == Plain(dirs[i], prog);
    var r := FirstRunnable(fs, cs);
    var k :| 0 <= k < |cs| && cs[k] == r.value && Runnable(fs, cs[k])
      && forall j :: 0 <= j < k ==> !Runnable(fs, cs[j]);
    assert cs[k] in cs;
  }

  /** What `findExecutable(prog)` yields for a given choice of environment key. */
  ghost predicate Resolves(env: map<string, string>, fs: FileSystem, prog: string, r: Result<string, EngineError>)
  {
    if forall k :: k in env ==> !EqualsIgnoreCase(k, PathName) then r == Err(PathNotFound)
    else exists k :: k in env && EqualsIgnoreCase(k, PathName) && r == Search(JavaSplit(env[k], PathSeparator), prog, fs)
  }

  /**
   * `findExecutable`: splits the `PATH` value and tries `dir/prog`, then
   * `dir/prog.exe`, for each directory in order, returning the first file
   * that is executable and not a directory.
   */
  method FindExecutable(env: map<string, string>, fs: FileSystem, prog: string) returns (r: Result<string, EngineError>)
    ensures Resolves(env, fs, prog, r)
  {
    var name;
    ghost var walk;
    name, walk := PathEnvName(env);
    if name.Err? {
      return Err(name.error);
    }
    var dirs := JavaSplit(env[name.value], PathSeparator);
    ghost var files := Candidates(dirs, prog);
    for i := 0 to |dirs|
      invariant forall j :: 0 <= j < 2 * i ==> !Runnable(fs, files[j])
    {
      var file := Plain(dirs[i], prog);
      if Runnable(fs, file) {
        FirstRunnableAt(fs, files, 2 * i);
        return Ok(file);
      }
      file := WithExe(dirs[i], prog);
      if Runnable(fs, file) {
        FirstRunnableAt(fs, files, 2 * i + 1);
        return Ok(file);
      }
    }
    r := Err(ProgramNotFound(prog));
  }
}
