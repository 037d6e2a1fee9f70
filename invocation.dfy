/**
 * Building the indexer's invocation (runIped.go): the defaults that
 * `runIped` takes from the environment for an empty jar path or heap size,
 * `assertEnv`'s fatal check, and the fixed `java` command line.
 *
 * The process environment is a map; a variable that is not in it reads as
 * the empty string, as with `os.Getenv`. `log.Fatal` ends the process; here
 * it is the error value `Fatal` carrying the message it would log.
 */
module Invocation {
  import opened Wrappers

  datatype IpedParams = IpedParams(memory: string, jar: string, evidence: string, output: string)

  /** The process exits with this message logged. */
  datatype Fatal = Fatal(message: string)

  /** A program name and the arguments that follow it. */
  datatype Cmd = Cmd(name: string, args: seq<string>)

  const JarVariable: string := "IPEDJAR"
  const MemoryVariable: string := "MEMORY"
  const UnsetMessage: string := "environment variable not set: "

  function Getenv(env: map<string, string>, key: string): string
  {
    if key in env then env[key] else ""
  }

  /** `assertEnv(key)`: the variable's value, or fatal when it is unset or empty. */
  function AssertEnv(env: map<string, string>, key: string): (r: Result<string, Fatal>)
    ensures r.Success? <==> key in env && env[key] != ""
    ensures r.Success? ==> r.value == env[key]
    ensures r.Failure? ==> r.error == Fatal(UnsetMessage + key)
  {
    var data := Getenv(env, key);
    if data == "" then Failure(Fatal(UnsetMessage + key)) else Success(data)
  }

  /**
   * The start of `runIped(params)`: an empty jar path is replaced by
   * `IPEDJAR`, then an empty heap size by `MEMORY`; the first of the two
   * lookups that fails is fatal. The evidence and output paths pass through.
   */
  method ResolveParams(params: IpedParams, env: map<string, string>) returns (r: Result<IpedParams, Fatal>)
    ensures r.Success? <==>
      (params.jar != "" || AssertEnv(env, JarVariable).Success?) &&
      (params.memory != "" || AssertEnv(env, MemoryVariable).Success?)
    ensures r.Failure? ==>
      r.error == Fatal(UnsetMessage + (if params.jar == "" && AssertEnv(env, JarVariable).Failure? then JarVariable else MemoryVariable))
    ensures r.Success? ==>
      r.value.jar == (if params.jar != "" then params.jar else env[JarVariable]) &&
      r.value.memory == (if params.memory != "" then params.memory else env[MemoryVariable]) &&
      r.value.evidence == params.evidence && r.value.output == params.output
    ensures r.Success? ==> r.value.jar != "" && r.value.memory != ""
  {
    var p := params;
    if p.jar == "" {
      var jar := AssertEnv(env, JarVariable);
      if jar.Failure? {
        return Failure(jar.error);
      }
      p := p.(jar := jar.value);
    }
    if p.memory == "" {
      var memory := AssertEnv(env, MemoryVariable);
      if memory.Failure? {
        return Failure(memory.error);
      }
      p := p.(memory := memory.value);
    }
    return Success(p);
  }

  const HeadlessFlag: string := "-Djava.awt.headless=true"
  const HeapFlagPrefix: string := "-Xmx"
  const ModeFlags: seq<string> := ["--nologfile", "--nogui", "--portable"]

  /** The command `runIped` starts: `java` with its eleven arguments. */
  function JavaCommand(p: IpedParams): (c: Cmd)
    ensures c.name == "java" && |c.args| == 11
  {
    Cmd("java", [HeadlessFlag, HeapFlagPrefix + p.memory, "-jar", p.jar, "-d", p.evidence, "-o", p.output] + ModeFlags)
  }

  // ---------------------------------------------------------------------------
  // How the command line is read: the JVM takes the options before `-jar`,
  // the next argument is the jar, and the rest goes to the indexer, which
  // reads `-d` and `-o` as options with a value and `--` words as flags.
  // ---------------------------------------------------------------------------

  /** What the indexer reads from its own arguments. */
  datatype IndexerOptions = IndexerOptions(sources: seq<string>, output: Option<string>, flags: seq<string>)

  /** The arguments as the JVM splits them. */
  datatype JvmLine = JvmLine(options: seq<string>, jar: string, appArgs: seq<string>)

  function FirstIndexOf(xs: seq<string>, x: string): (r: Option<nat>)
    ensures r.Some? ==> r.value < |xs| && xs[r.value] == x && forall k :: 0 <= k < r.value ==> xs[k] != x
    ensures r.None? ==> x !in xs
  {
    if xs == [] then None
    else if xs[0] == x then Some(0)
    else match FirstIndexOf(xs[1..], x)
      case None => None
      case Some(k) => Some(k + 1)
  }

  function SplitJvm(args: seq<string>): Option<JvmLine>
  {
    match FirstIndexOf(args, "-jar")
    case None => None
    case Some(k) => if k + 1 < |args| then Some(JvmLine(args[..k], args[k + 1], args[k + 2..])) else None
  }

  /** The heap size the last `-Xmx` option among the JVM options sets. */
  function HeapSize(options: seq<string>): Option<string>
  {
    if options == [] then None
    else
      var last := options[|options| - 1];
      if |last| >= |HeapFlagPrefix| && last[..|HeapFlagPrefix|] == HeapFlagPrefix then Some(last[|HeapFlagPrefix|..])
      else HeapSize(options[..|options| - 1])
  }

  /** A word that starts with two dashes. */
  predicate IsFlag(w: string) { |w| >= 2 && w[0] == '-' && w[1] == '-' }

  function ParseIndexerArgs(args: seq<string>): Option<IndexerOptions>
    decreases |args|
  {
    if args == [] then Some(IndexerOptions([], None, []))
    else if args[0] == "-d" || args[0] == "-o" then
      if |args| < 2 then None
      else
        match ParseIndexerArgs(args[2..])
        case None => None
        case Some(o) =>
          if args[0] == "-d" then Some(o.(sources := [args[1]] + o.sources))
          else Some(o.(output := Some(args[1])))
    else if IsFlag(args[0]) then
      match ParseIndexerArgs(args[1..])
      case None => None
      case Some(o) => Some(o.(flags := [args[0]] + o.flags))
    else None
  }

  /**
   * Reading a `java` command line back into the parameters: the heap size,
   * the jar, the single evidence source and the output directory.
   */
  function ReadCommand(c: Cmd): Option<IpedParams>
  {
    if c.name != "java" then None
    else
      match SplitJvm(c.args)
      case None => None
      case Some(line) =>
        match (HeapSize(line.options), ParseIndexerArgs(line.appArgs))
        case (Some(memory), Some(o)) =>
          if |o.sources| == 1 && o.output.Some? then Some(IpedParams(memory, line.jar, o.sources[0], o.output.value))
          else None
        case _ => None
  }

  /** The JVM finds `-jar` third: neither the headless flag nor any `-Xmx` option is `-jar`. */
  lemma JavaCommandSplits(p: IpedParams)
    ensures SplitJvm(JavaCommand(p).args) == Some(JvmLine([HeadlessFlag, HeapFlagPrefix + p.memory], p.jar,
      ["-d", p.evidence, "-o", p.output] + ModeFlags))
  {
    var args := JavaCommand(p).args;
    var heap := HeapFlagPrefix + p.memory;
    assert heap[1] == 'X';
    assert args[0] == HeadlessFlag && args[1] == heap && args[2] == "-jar";
    assert args[1..][1..][0] == "-jar";
    assert FirstIndexOf(args, "-jar") == Some(2);
    assert args[..2] == [HeadlessFlag, heap];
    assert args[4..] == ["-d", p.evidence, "-o", p.output] + ModeFlags;
  }

  /** The `-Xmx` option gives the heap size back. */
  lemma HeapOptionReadsBack(memory: string)
    ensures HeapSize([HeadlessFlag, HeapFlagPrefix + memory]) == Some(memory)
  {
    var heap := HeapFlagPrefix + memory;
    assert heap[..|HeapFlagPrefix|] == HeapFlagPrefix && heap[|HeapFlagPrefix|..] == memory;
  }

  /** The three mode flags are read as flags, in order. */
  lemma ModeFlagsParse()
    ensures ParseIndexerArgs(ModeFlags) == Some(IndexerOptions([], None, ModeFlags))
  {
    var f3 := ["--portable"];
    var f2 := ["--nogui", "--portable"];
    assert IsFlag("--portable") && IsFlag("--nogui") && IsFlag("--nologfile");
    assert f3[1..] == [] && [f3[0]] + [] == f3;
    assert ParseIndexerArgs(f3) == Some(IndexerOptions([], None, f3));
    assert f2[1..] == f3 && [f2[0]] + f3 == f2;
    assert ParseIndexerArgs(f2) == Some(IndexerOptions([], None, f2));
    assert ModeFlags[1..] == f2 && [ModeFlags[0]] + f2 == ModeFlags;
  }

  /** The indexer reads the evidence after `-d` and the output after `-o`, whatever the strings are. */
  lemma IndexerArgsReadBack(evidence: string, output: string)
    ensures ParseIndexerArgs(["-d", evidence, "-o", output] + ModeFlags)
      == Some(IndexerOptions([evidence], Some(output), ModeFlags))
  {
    var app := ["-d", evidence, "-o", output] + ModeFlags;
    ModeFlagsParse();
    var tail := app[2..];
    assert tail[2..] == ModeFlags;
    assert tail[0] == "-o" && tail[1] == output;
    assert ParseIndexerArgs(tail) == Some(IndexerOptions([], Some(output), ModeFlags));
    assert app[0] == "-d" && app[1] == evidence && [evidence] + [] == [evidence];
  }

  /**
   * The command line carries every parameter so that it is read back
   * unchanged: the heap size as the `-Xmx` option, the jar after `-jar`, the
   * evidence after `-d` and the output after `-o`.
   */
  lemma JavaCommandReadsBack(p: IpedParams)
    ensures ReadCommand(JavaCommand(p)) == Some(p)
  {
    JavaCommandSplits(p);
    HeapOptionReadsBack(p.memory);
    IndexerArgsReadBack(p.evidence, p.output);
  }

  /** Different parameters never give the same command line. */
  lemma JavaCommandInjective(p: IpedParams, q: IpedParams)
    requires JavaCommand(p) == JavaCommand(q)
    ensures p == q
  {
    JavaCommandReadsBack(p);
    JavaCommandReadsBack(q);
  }
}
