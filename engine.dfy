/**
 * The render engine: a registry of output formats (never empty), the
 * layout program's name, the working directory, and the argument vector
 * handed to the layout program. Spawning the process, writing the
 * temporary DOT file and logging are outside the model.
 */
module Engine {
  import opened Wrappers
  import opened Enumerations
  import opened Executables
  import opened Digraphs

  /** An output format and, once set, the file it is written to. */
  class OutputType {
    const name: string
    var filePath: Option<string>

    constructor (name: string)
      ensures this.name == name && filePath == None
    {
      this.name := name;
      filePath := None;
    }

    method ToFilePath(path: string)
      modifies this
      ensures filePath == Some(path)
    {
      filePath := Some(path);
    }
  }

  /** `filePath()`: the path set on the type, or the type's own default for its format. */
  function PathOf(t: OutputType, defaultPath: string -> string): string
    reads t
  {
    match t.filePath
    case Some(p) => p
    case None => defaultPath(t.name)
  }

  /** The two arguments one output type contributes. */
  function TypeFlags(t: OutputType, defaultPath: string -> string): seq<string>
    reads t
  {
    ["-T" + t.name, "-o" + PathOf(t, defaultPath)]
  }

  /** The flags of the output types, in the order given. */
  function TypeArgs(ts: seq<OutputType>, defaultPath: string -> string): (r: seq<string>)
    reads ts
    ensures |r| == 2 * |ts|
    ensures forall i :: 0 <= i < |ts| ==>
      r[2 * i] == "-T" + ts[i].name && r[2 * i + 1] == "-o" + PathOf(ts[i], defaultPath)
  {
    if ts == [] then []
    else TypeArgs(ts[..|ts| - 1], defaultPath) + TypeFlags(ts[|ts| - 1], defaultPath)
  }

  /** Appending a type appends its two flags. */
  lemma TypeArgsSnoc(ts: seq<OutputType>, t: OutputType, defaultPath: string -> string)
    ensures TypeArgs(ts + [t], defaultPath) == TypeArgs(ts, defaultPath) + TypeFlags(t, defaultPath)
  {
    assert (ts + [t])[..|ts|] == ts;
  }

  /** The argument vector: program, the flags of each type in the order given, then the DOT file. */
  function CommandLine(prog: string, ts: seq<OutputType>, dotFile: string, defaultPath: string -> string): seq<string>
    reads ts
  {
    [prog] + TypeArgs(ts, defaultPath) + [dotFile]
  }

  /**
   * The argument vector starts with the program and ends with the DOT file;
   * in between, each type contributes `-T<format>` followed by `-o<path>`.
   */
  lemma CommandLineShape(prog: string, ts: seq<OutputType>, dotFile: string, defaultPath: string -> string)
    ensures var c := CommandLine(prog, ts, dotFile, defaultPath);
      && |c| == 2 + 2 * |ts|
      && c[0] == prog && c[|c| - 1] == dotFile
      && forall i :: 0 <= i < |ts| ==>
        c[1 + 2 * i] == "-T" + ts[i].name && c[2 + 2 * i] == "-o" + PathOf(ts[i], defaultPath)
  {
    var args := TypeArgs(ts, defaultPath);
    var c := CommandLine(prog, ts, dotFile, defaultPath);
    forall i | 0 <= i < |ts|
      ensures c[1 + 2 * i] == args[2 * i] && c[2 + 2 * i] == args[2 * i + 1]
    {
    }
  }

  class GraphvizEngine {
    /** The graph to render. */
    const graph: Digraph
    /** Format name to output type. */
    var types: map<string, OutputType>
    /** The layout program's name. */
    var layoutManager: string
    /** The working directory the layout program runs in. */
    var directoryPath: string

    /** At least one output type is registered, each under its own format name. */
    ghost predicate Valid()
      reads this
    {
      && |types| >= 1
      && forall k :: k in types ==> types[k].name == k
    }

    /** A new engine renders to `png` with the `dot` layout, from the current directory. */
    constructor (graph: Digraph)
      ensures Valid()
      ensures this.graph == graph
      ensures types.Keys == {"png"} && fresh(types["png"]) && types["png"].filePath == None
      ensures layoutManager == "dot" && directoryPath == "."
    {
      this.graph := graph;
      var png := new OutputType("png");
      types := map["png" := png];
      layoutManager := "dot";
      directoryPath := ".";
    }

    /** `fromDirectoryPath` */
    method FromDirectoryPath(path: string)
      modifies this`directoryPath
      ensures directoryPath == path
    {
      directoryPath := path;
    }

    /** `layout`: names the program the next output runs. */
    method Layout(manager: string)
      modifies this`layoutManager
      ensures layoutManager == manager
    {
      layoutManager := manager;
    }

    /** Returns the type registered for `name`, registering a new one only when there is none. */
    method AddType(name: string) returns (t: OutputType)
      requires Valid()
      modifies this`types
      ensures Valid()
      ensures name in old(types) ==> t == old(types)[name] && types == old(types)
      ensures name !in old(types) ==>
        fresh(t) && t.name == name && t.filePath == None && types == old(types)[name := t]
      ensures name in types && types[name] == t
    {
      if name in types {
        t := types[name];
      } else {
        t := new OutputType(name);
        types := types[name := t];
      }
    }

    /** Unregisters `name`, refusing when it would leave no type at all (even if `name` is not registered). */
    method RemoveType(name: string) returns (r: Outcome<EngineError>)
      requires Valid()
      modifies this`types
      ensures Valid()
      ensures r.Fail? <==> |old(types)| == 1
      ensures r.Fail? ==> r.error == IllegalState("must be a type defined.") && types == old(types)
      ensures r.Pass? ==> types == old(types) - {name}
    {
      if |types| == 1 {
        return Fail(IllegalState("must be a type defined."));
      }
      assert (types - {name}).Keys == types.Keys - {name};
      types := types - {name};
      r := Pass;
    }

    /** Sets the output path of the sole registered type; refuses when there are several. */
    method ToFilePath(path: string) returns (r: Outcome<EngineError>)
      requires Valid()
      modifies types.Values
      ensures r.Fail? <==> |types| > 1
      ensures r.Fail? ==> r.error == IllegalState("there was more of a type defined.")
      ensures r.Fail? ==> forall k :: k in types ==> types[k].filePath == old(types[k].filePath)
      ensures r.Pass? ==> exists k :: types.Keys == {k} && types[k].filePath == Some(path)
    {
      if |types| > 1 {
        return Fail(IllegalState("there was more of a type defined."));
      }
      var k :| k in types;
      assert types.Keys == {k} by {
        var rest := types.Keys - {k};
        assert types.Keys == rest + {k};
        assert |rest| == 0;
      }
      types[k].ToFilePath(path);
      r := Pass;
    }

    /** The DOT text `output()` writes to the temporary file: the graph's own rendering. */
    method DotText() returns (dot: string)
      ensures graph.Renders(dot)
    {
      dot := graph.Render();
    }

    /**
     * `output()` up to the spawn: resolves the layout program and builds the
     * argument vector, the types taken in the registry's own order (recorded
     * in `order`). `dotFile` is the temporary file holding the DOT text;
     * `defaultPath` gives each format's default output path.
     */
    method Output(env: map<string, string>, fs: FileSystem, dotFile: string, defaultPath: string -> string)
        returns (command: Result<seq<string>, EngineError>, resolved: Result<string, EngineError>, ghost order: seq<string>)
      ensures Resolves(env, fs, layoutManager, resolved)
      ensures resolved.Err? ==> command == Err(resolved.error)
      ensures resolved.Ok? ==>
        && IsEnumeration(order, types.Keys)
        && command == Ok(CommandLine(resolved.value, ValuesAt(types, order), dotFile, defaultPath))
    {
      resolved := FindExecutable(env, fs, layoutManager);
      order := [];
      if resolved.Err? {
        return Err(resolved.error), resolved, order;
      }
      var args;
      args, order := TypeArguments(defaultPath);
      command := Ok([resolved.value] + args + [dotFile]);
    }

    /** The flags of every registered type, taken in the registry's own order (recorded in `order`). */
    method TypeArguments(defaultPath: string -> string) returns (args: seq<string>, ghost order: seq<string>)
      ensures IsEnumeration(order, types.Keys)
      ensures args == TypeArgs(ValuesAt(types, order), defaultPath)
    {
      args := [];
      var remaining := types.Keys;
      order := [];
      while remaining != {}
        invariant Enumerating(order, remaining, types.Keys)
        invariant args == TypeArgs(ValuesAt(types, order), defaultPath)
        decreases remaining
      {
        var k :| k in remaining;
        var t := types[k];
        EnumerationStep(order, remaining, types.Keys, k);
        TypeArgsSnoc(ValuesAt(types, order), t, defaultPath);
        assert (order + [k])[..|order|] == order;
        args := args + ["-T" + t.name, "-o" + PathOf(t, defaultPath)];
        order := order + [k];
        remaining := remaining - {k};
      }
      EnumerationDone(order, types.Keys);
    }
  }
}
