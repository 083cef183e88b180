/** The fluent template builder (template/template.go). */
module TemplateBuilder {
  import opened Options
  import Decimal
  import Paths
  import Sequences
  import Text

  datatype Kind = Run | Copy | Workdir | Env | User | Expose | Entrypoint | Raw

  datatype Instruction = Instruction(
    kind: Kind,
    args: seq<string>,
    force: bool,
    forceUpload: Option<bool>,
    resolveSymlinks: Option<bool>)

  datatype BuilderError = BadCopySource(path: Paths.PathError) | NeedsMcpGateway | NeedsDevContainer

  datatype Registry = General(username: string, password: string)

  /** All fields of a builder, as a value. */
  datatype State = State(
    baseImage: string,
    baseTemplate: string,
    startCmd: string,
    readyCmd: string,
    instructions: seq<Instruction>,
    envs: map<string, string>,
    workdir: string,
    tag: string,
    contextDir: string,
    ignorePatterns: seq<string>,
    forceNextLayer: bool,
    err: Option<BuilderError>,
    registry: Option<Registry>)

  const DEFAULT_IMAGE := "e2bdev/base"
  const MCP_GATEWAY := "mcp-gateway"
  const DEVCONTAINER := "devcontainer"

  function NewState(): State {
    State(DEFAULT_IMAGE, "", "", "", [], map[], "", "", "", [], false, None, None)
  }

  datatype CopyOptions = CopyOptions(
    user: string, mode: string, forceUpload: Option<bool>, resolveSymlinks: Option<bool>)

  datatype CopyItem = CopyItem(
    src: string, dest: string, user: string, mode: string, forceUpload: bool, resolveSymlinks: Option<bool>)

  /** One call on the builder. SetEnvs carries the order in which its map happened to be iterated. */
  datatype Call =
    | FromImage(image: string, credentials: Option<Registry>)
    | FromTemplate(templateID: string)
    | DockerfileFrom(image: string)
    | WithContext(dir: string)
    | WithIgnore(patterns: seq<string>)
    | SkipCache
    | RunAs(cmd: string, user: string)
    | CopyFiles(src: string, dest: string, options: CopyOptions)
    | Workdir(path: string)
    | SetWorkdir(path: string)
    | SetUser(user: string)
    | Env(key: string, value: string)
    | SetEnvs(vars: map<string, string>, order: seq<string>)
    | Expose(port: int)
    | Entrypoint(cmd: string)
    | AddMCPServer(servers: seq<string>)
    | DevContainerPrebuild(dir: string)
    | DevContainerStart(dir: string)
    | SetStartCmd(cmd: string, ready: string)
    | SetReadyCmd(ready: string)
    | SetTag(tag: string)

  ghost predicate ValidCall(c: Call) {
    c.SetEnvs? ==> Sequences.Enumerates(c.order, c.vars.Keys)
  }

  function Interleave(vars: map<string, string>, order: seq<string>): seq<string> {
    if order == [] then []
    else [order[0], if order[0] in vars then vars[order[0]] else ""] + Interleave(vars, order[1..])
  }

  /** Appending an instruction takes the pending force flag with it. */
  function Append(s: State, kind: Kind, args: seq<string>): State {
    AppendWith(s, kind, args, None, None)
  }

  function AppendWith(s: State, kind: Kind, args: seq<string>,
                      forceUpload: Option<bool>, resolveSymlinks: Option<bool>): State {
    s.(instructions := s.instructions + [Instruction(kind, args, s.forceNextLayer, forceUpload, resolveSymlinks)],
       forceNextLayer := false)
  }

  function RunInstruction(s: State, cmd: string, user: string): State {
    Append(s, Kind.Run, if user != "" then [cmd, user] else [cmd])
  }

  function Fail(s: State, e: BuilderError): State {
    if s.err == None then s.(err := Some(e)) else s
  }

  /** What one call does to the builder. */
  function Next(s: State, c: Call): State {
    match c
    case FromImage(image, credentials) =>
      s.(baseImage := image, baseTemplate := "",
         registry := if credentials.Some? && (credentials.value.username != "" || credentials.value.password != "")
                     then credentials else None)
    case FromTemplate(id) => s.(baseTemplate := id, baseImage := "")
    case DockerfileFrom(image) => s.(baseImage := image)
    case WithContext(dir) => s.(contextDir := dir)
    case WithIgnore(patterns) => s.(ignorePatterns := s.ignorePatterns + patterns)
    case SkipCache => s.(forceNextLayer := true)
    case RunAs(cmd, user) => RunInstruction(s, cmd, user)
    case CopyFiles(src, dest, o) =>
      (match Paths.ValidateRelativePath(src)
       case Some(e) => Fail(s, BadCopySource(e))
       case None => AppendWith(s, Kind.Copy, [src, dest, o.user, o.mode], o.forceUpload, o.resolveSymlinks))
    case Workdir(path) => Append(s.(workdir := path), Kind.Workdir, [path])
    case SetWorkdir(path) => Append(s, Kind.Workdir, [path])
    case SetUser(user) => Append(s, Kind.User, [user])
    case Env(key, value) => Append(s.(envs := s.envs[key := value]), Kind.Env, [key, value])
    case SetEnvs(vars, order) => if vars == map[] then s else Append(s, Kind.Env, Interleave(vars, order))
    case Expose(port) => Append(s, Kind.Expose, [Decimal.Render(port)])
    case Entrypoint(cmd) => Append(s, Kind.Entrypoint, [cmd])
    case AddMCPServer(servers) =>
      if s.baseTemplate != MCP_GATEWAY then Fail(s, NeedsMcpGateway)
      else RunInstruction(s, "mcp-gateway pull " + Text.Join(servers, ' '), "root")
    case DevContainerPrebuild(dir) =>
      if s.baseTemplate != DEVCONTAINER then Fail(s, NeedsDevContainer)
      else RunInstruction(s, "devcontainer build --workspace-folder " + dir, "root")
    case DevContainerStart(dir) =>
      if s.baseTemplate != DEVCONTAINER then Fail(s, NeedsDevContainer)
      else s.(startCmd := DevContainerStartCmd(dir), readyCmd := DEVCONTAINER_READY)
    case SetStartCmd(cmd, ready) => s.(startCmd := cmd, readyCmd := ready)
    case SetReadyCmd(ready) => s.(readyCmd := ready)
    case SetTag(tag) => s.(tag := tag)
  }

  const DEVCONTAINER_READY := "[ -f /devcontainer.up ]"

  function DevContainerStartCmd(dir: string): string {
    "sudo devcontainer up --workspace-folder " + dir + " && sudo /prepare-exec.sh " + dir
    + " | sudo tee /devcontainer.sh > /dev/null && sudo chmod +x /devcontainer.sh && sudo touch /devcontainer.up"
  }

  function After(s: State, calls: seq<Call>): State {
    if calls == [] then s else Next(After(s, calls[..|calls| - 1]), calls[|calls| - 1])
  }

  lemma {:induction false} AfterConcat(s: State, a: seq<Call>, b: seq<Call>)
    ensures After(s, a + b) == After(After(s, a), b)
  {
    if b == [] {
      assert a + b == a;
    } else {
      var last := |b| - 1;
      assert (a + b)[..|a + b| - 1] == a + b[..last];
      AfterConcat(s, a, b[..last]);
    }
  }

  /** The keys and values of a map, one after the other, in whatever order the map is iterated. */
  method FlattenVariables(vars: map<string, string>) returns (args: seq<string>, ghost order: seq<string>)
    ensures Sequences.Enumerates(order, vars.Keys) && args == Interleave(vars, order)
  {
    args, order := [], [];
    var left := vars.Keys;
    while left != {}
      invariant left <= vars.Keys
      invariant Sequences.Enumerates(order, vars.Keys - left)
      invariant args == Interleave(vars, order)
    {
      var k :| k in left;
      InterleaveSnoc(vars, order, k);
      args := args + [k, vars[k]];
      order := order + [k];
      left := left - {k};
    }
    assert vars.Keys - {} == vars.Keys;
  }

  /** A mutable builder; its methods return the builder for chaining, which the model omits. */
  class Builder {
    var baseImage: string
    var baseTemplate: string
    var startCmd: string
    var readyCmd: string
    var instructions: seq<Instruction>
    var envs: map<string, string>
    var workdir: string
    var tag: string
    var contextDir: string
    var ignorePatterns: seq<string>
    var forceNextLayer: bool
    var err: Option<BuilderError>
    var registry: Option<Registry>

    ghost function View(): State
      reads this
    {
      State(baseImage, baseTemplate, startCmd, readyCmd, instructions, envs, workdir, tag,
            contextDir, ignorePatterns, forceNextLayer, err, registry)
    }

    constructor ()
      ensures View() == NewState()
      ensures View() == State("e2bdev/base", "", "", "", [], map[], "", "", "", [], false, None, None)
    {
      baseImage, baseTemplate, startCmd, readyCmd := DEFAULT_IMAGE, "", "", "";
      instructions, envs, workdir, tag := [], map[], "", "";
      contextDir, ignorePatterns, forceNextLayer := "", [], false;
      err, registry := None, None;
    }

    method FromImage(image: string, credentials: Option<Registry>)
      modifies this
      ensures View() == Next(old(View()), Call.FromImage(image, credentials))
      ensures View() == old(View()).(baseImage := image, baseTemplate := "", registry := registry)
      ensures registry == if credentials in [None, Some(General("", ""))] then None else credentials
    {
      baseImage := image;
      baseTemplate := "";
      registry := None;
      if credentials.Some? && (credentials.value.username != "" || credentials.value.password != "") {
        registry := credentials;
      }
    }

    method FromTemplate(templateID: string)
      modifies this
      ensures View() == Next(old(View()), Call.FromTemplate(templateID))
      ensures View() == old(View()).(baseImage := "", baseTemplate := templateID)
    {
      baseTemplate := templateID;
      baseImage := "";
    }

    method WithContext(dir: string)
      modifies this
      ensures View() == Next(old(View()), Call.WithContext(dir))
      ensures View() == old(View()).(contextDir := dir)
    {
      contextDir := dir;
    }

    method WithIgnore(patterns: seq<string>)
      modifies this
      ensures View() == Next(old(View()), Call.WithIgnore(patterns))
      ensures View() == old(View()).(ignorePatterns := old(ignorePatterns) + patterns)
    {
      ignorePatterns := ignorePatterns + patterns;
    }

    method SkipCache()
      modifies this
      ensures View() == Next(old(View()), Call.SkipCache)
      ensures View() == old(View()).(forceNextLayer := true)
    {
      forceNextLayer := true;
    }

    method ConsumeForce() returns (f: bool)
      modifies this`forceNextLayer
      ensures f == old(forceNextLayer) && !forceNextLayer
    {
      f := forceNextLayer;
      forceNextLayer := false;
    }

    method AppendInstruction(kind: Kind, args: seq<string>, forceUpload: Option<bool>, resolveSymlinks: Option<bool>)
      modifies this
      ensures View() == AppendWith(old(View()), kind, args, forceUpload, resolveSymlinks)
      ensures View() == old(View()).(forceNextLayer := false,
        instructions := old(instructions)
          + [Instruction(kind, args, old(forceNextLayer), forceUpload, resolveSymlinks)])
    {
      var force := ConsumeForce();
      instructions := instructions + [Instruction(kind, args, force, forceUpload, resolveSymlinks)];
    }

    method RunAs(cmd: string, user: string)
      modifies this
      ensures View() == Next(old(View()), Call.RunAs(cmd, user))
      ensures View() == old(View()).(forceNextLayer := false,
        instructions := old(instructions)
          + [Instruction(Kind.Run, if user == "" then [cmd] else [cmd, user], old(forceNextLayer), None, None)])
    {
      var args := [cmd];
      if user != "" {
        args := args + [user];
        assert args == [cmd, user];
      }
      AppendInstruction(Kind.Run, args, None, None);
    }

    /** Remembers the first error only. */
    method Record(e: BuilderError)
      modifies this`err
      ensures View() == Fail(old(View()), e)
      ensures err == if old(err) == None then Some(e) else old(err)
    {
      if err == None {
        err := Some(e);
      }
    }

    method Copy(src: string, dest: string, o: CopyOptions)
      modifies this
      ensures View() == Next(old(View()), CopyFiles(src, dest, o))
      ensures Paths.ValidateRelativePath(src) == None ==>
        View() == old(View()).(forceNextLayer := false,
          instructions := old(instructions)
            + [Instruction(Kind.Copy, [src, dest, o.user, o.mode], old(forceNextLayer), o.forceUpload,
                           o.resolveSymlinks)])
      ensures Paths.ValidateRelativePath(src) != None ==> View() == old(View()).(err := err)
      ensures old(err) != None || Paths.ValidateRelativePath(src) == None ==> err == old(err)
      ensures old(err) == None && Paths.ValidateRelativePath(src) != None ==>
        err == Some(BadCopySource(Paths.ValidateRelativePath(src).value))
    {
      var invalid := Paths.ValidateRelativePath(src);
      if invalid.Some? {
        Record(BadCopySource(invalid.value));
        return;
      }
      AppendInstruction(Kind.Copy, [src, dest, o.user, o.mode], o.forceUpload, o.resolveSymlinks);
    }

    method CopyItems(items: seq<CopyItem>)
      modifies this
      ensures View() == After(old(View()), Sequences.Map(ItemCall, items))
    {
      for i := 0 to |items|
        invariant View() == After(old(View()), Sequences.Map(ItemCall, items)[..i])
      {
        var calls := Sequences.Map(ItemCall, items);
        assert calls[..i + 1][..i] == calls[..i];
        var item := items[i];
        Copy(item.src, item.dest, ItemOptions(item));
      }
      assert Sequences.Map(ItemCall, items)[..|items|] == Sequences.Map(ItemCall, items);
    }

    method Workdir(path: string)
      modifies this
      ensures View() == Next(old(View()), Call.Workdir(path))
      ensures View() == old(View()).(workdir := path, forceNextLayer := false,
        instructions := old(instructions) + [Instruction(Kind.Workdir, [path], old(forceNextLayer), None, None)])
    {
      workdir := path;
      AppendInstruction(Kind.Workdir, [path], None, None);
    }

    method SetWorkdir(path: string)
      modifies this
      ensures View() == Next(old(View()), Call.SetWorkdir(path))
      ensures View() == old(View()).(forceNextLayer := false,
        instructions := old(instructions) + [Instruction(Kind.Workdir, [path], old(forceNextLayer), None, None)])
    {
      AppendInstruction(Kind.Workdir, [path], None, None);
    }

    method SetUser(user: string)
      modifies this
      ensures View() == Next(old(View()), Call.SetUser(user))
      ensures View() == old(View()).(forceNextLayer := false,
        instructions := old(instructions) + [Instruction(Kind.User, [user], old(forceNextLayer), None, None)])
    {
      AppendInstruction(Kind.User, [user], None, None);
    }

    method Env(key: string, value: string)
      modifies this
      ensures View() == Next(old(View()), Call.Env(key, value))
      ensures View() == old(View()).(envs := old(envs)[key := value], forceNextLayer := false,
        instructions := old(instructions) + [Instruction(Kind.Env, [key, value], old(forceNextLayer), None, None)])
    {
      envs := envs[key := value];
      AppendInstruction(Kind.Env, [key, value], None, None);
    }

    /** Iterates its map in an unspecified order, which it reports. */
    method SetEnvs(vars: map<string, string>) returns (ghost order: seq<string>)
      modifies this
      ensures ValidCall(Call.SetEnvs(vars, order))
      ensures View() == Next(old(View()), Call.SetEnvs(vars, order))
    {
      if |vars| == 0 {
        return [];
      }
      var args;
      args, order := FlattenVariables(vars);
      hide Interleave, Sequences.Enumerates;
      AppendInstruction(Kind.Env, args, None, None);
    }

    method Expose(port: int)
      modifies this
      ensures View() == Next(old(View()), Call.Expose(port))
      ensures View() == old(View()).(forceNextLayer := false,
        instructions := old(instructions)
          + [Instruction(Kind.Expose, [Decimal.Render(port)], old(forceNextLayer), None, None)])
    {
      AppendInstruction(Kind.Expose, [Decimal.Render(port)], None, None);
    }

    method Entrypoint(cmd: string)
      modifies this
      ensures View() == Next(old(View()), Call.Entrypoint(cmd))
      ensures View() == old(View()).(forceNextLayer := false,
        instructions := old(instructions) + [Instruction(Kind.Entrypoint, [cmd], old(forceNextLayer), None, None)])
    {
      AppendInstruction(Kind.Entrypoint, [cmd], None, None);
    }

    method SetStartCmd(cmd: string, ready: string)
      modifies this
      ensures View() == Next(old(View()), Call.SetStartCmd(cmd, ready))
      ensures View() == old(View()).(startCmd := cmd, readyCmd := ready)
    {
      startCmd := cmd;
      readyCmd := ready;
    }

    method SetReadyCmd(ready: string)
      modifies this
      ensures View() == Next(old(View()), Call.SetReadyCmd(ready))
      ensures View() == old(View()).(readyCmd := ready)
    {
      readyCmd := ready;
    }

    method SetTag(tag: string)
      modifies this
      ensures View() == Next(old(View()), Call.SetTag(tag))
      ensures View() == old(View()).(tag := tag)
    {
      this.tag := tag;
    }

    method AddMCPServer(servers: seq<string>)
      modifies this
      ensures View() == Next(old(View()), Call.AddMCPServer(servers))
      ensures old(baseTemplate) == "mcp-gateway" ==>
        View() == old(View()).(forceNextLayer := false,
          instructions := old(instructions)
            + [Instruction(Kind.Run, ["mcp-gateway pull " + Text.Join(servers, ' '), "root"],
                           old(forceNextLayer), None, None)])
      ensures old(baseTemplate) != "mcp-gateway" ==>
        View() == old(View()).(err := if old(err) == None then Some(NeedsMcpGateway) else old(err))
    {
      if baseTemplate != MCP_GATEWAY {
        Record(NeedsMcpGateway);
        return;
      }
      RunAs("mcp-gateway pull " + Text.Join(servers, ' '), "root");
    }

    method BetaDevContainerPrebuild(dir: string)
      modifies this
      ensures View() == Next(old(View()), DevContainerPrebuild(dir))
      ensures old(baseTemplate) == "devcontainer" ==>
        View() == old(View()).(forceNextLayer := false,
          instructions := old(instructions)
            + [Instruction(Kind.Run, ["devcontainer build --workspace-folder " + dir, "root"],
                           old(forceNextLayer), None, None)])
      ensures old(baseTemplate) != "devcontainer" ==>
        View() == old(View()).(err := if old(err) == None then Some(NeedsDevContainer) else old(err))
    {
      if baseTemplate != DEVCONTAINER {
        Record(NeedsDevContainer);
        return;
      }
      RunAs("devcontainer build --workspace-folder " + dir, "root");
    }

    method BetaSetDevContainerStart(dir: string)
      modifies this
      ensures View() == Next(old(View()), DevContainerStart(dir))
      ensures old(baseTemplate) == "devcontainer" ==>
        View() == old(View()).(readyCmd := "[ -f /devcontainer.up ]",
          startCmd := "sudo devcontainer up --workspace-folder " + dir + " && sudo /prepare-exec.sh " + dir
          + " | sudo tee /devcontainer.sh > /dev/null && sudo chmod +x /devcontainer.sh && sudo touch /devcontainer.up")
      ensures old(baseTemplate) != "devcontainer" ==>
        View() == old(View()).(err := if old(err) == None then Some(NeedsDevContainer) else old(err))
    {
      if baseTemplate != DEVCONTAINER {
        Record(NeedsDevContainer);
        return;
      }
      startCmd := DevContainerStartCmd(dir);
      readyCmd := DEVCONTAINER_READY;
    }
  }

  function ItemOptions(item: CopyItem): CopyOptions {
    CopyOptions(item.user, item.mode, if item.forceUpload then Some(true) else None, item.resolveSymlinks)
  }

  function ItemCall(item: CopyItem): Call {
    CopyFiles(item.src, item.dest, ItemOptions(item))
  }

  /**
   * Items with accepted sources append one COPY each, in order; SkipCache called before them forces the
   * first one only, and an item that does not ask for an upload leaves the option unset.
   */
  lemma {:induction false} CopyItemsInOrder(s: State, items: seq<CopyItem>, i: nat)
    requires forall item :: item in items ==> Paths.ValidateRelativePath(item.src) == None
    requires i < |items|
    ensures var after := After(s, Sequences.Map(ItemCall, items)).instructions;
      && |after| == |s.instructions| + |items|
      && s.instructions <= after
      && after[|s.instructions| + i] == Instruction(
        Kind.Copy, [items[i].src, items[i].dest, items[i].user, items[i].mode], s.forceNextLayer && i == 0,
        if items[i].forceUpload then Some(true) else None, items[i].resolveSymlinks)
    decreases |items|
  {
    hide *;
    var last := |items| - 1;
    var was := s.instructions;
    var before := After(s, Sequences.Map(ItemCall, items[..last]));
    var after := After(s, Sequences.Map(ItemCall, items));
    assert items[last] in items;
    ItemsSnoc(s, items);
    if last > 0 {
      assert forall item :: item in items[..last] ==> item in items;
      CopyItemsInOrder(s, items[..last], if i < last then i else 0);
      assert items[..last] != [];
      assert items[last - 1] in items;
      ItemsSnoc(s, items[..last]);
      if i < last {
        assert items[..last][i] == items[i];
        assert after.instructions[|was| + i] == before.instructions[|was| + i];
      }
    }
  }

  /** The last of some accepted items. */
  lemma ItemsSnoc(s: State, items: seq<CopyItem>)
    requires items != []
    requires Paths.ValidateRelativePath(items[|items| - 1].src) == None
    ensures var item := items[|items| - 1];
      var before := After(s, Sequences.Map(ItemCall, items[..|items| - 1]));
      After(s, Sequences.Map(ItemCall, items)) == before.(forceNextLayer := false,
        instructions := before.instructions + [Instruction(
          Kind.Copy, [item.src, item.dest, item.user, item.mode], before.forceNextLayer,
          if item.forceUpload then Some(true) else None, item.resolveSymlinks)])
    ensures |items| == 1 ==> After(s, Sequences.Map(ItemCall, items[..0])) == s
  {
    hide *;
    var last := |items| - 1;
    var calls := Sequences.Map(ItemCall, items);
    AfterLast(s, calls);
    assert calls[..last] == Sequences.Map(ItemCall, items[..last]);
    AcceptedItem(After(s, calls[..last]), items[last]);
    if last == 0 {
      assert Sequences.Map(ItemCall, items[..0]) == [];
      AfterNothing(s);
    }
  }

  lemma AfterLast(s: State, calls: seq<Call>)
    requires calls != []
    ensures After(s, calls) == Next(After(s, calls[..|calls| - 1]), calls[|calls| - 1])
  {
    hide Next;
  }

  lemma AfterNothing(s: State)
    ensures After(s, []) == s
  {
  }

  lemma AcceptedItem(s: State, item: CopyItem)
    requires Paths.ValidateRelativePath(item.src) == None
    ensures Next(s, ItemCall(item)) == s.(forceNextLayer := false,
      instructions := s.instructions + [Instruction(
        Kind.Copy, [item.src, item.dest, item.user, item.mode], s.forceNextLayer,
        if item.forceUpload then Some(true) else None, item.resolveSymlinks)])
  {
    hide Paths.ValidateRelativePath;
  }

  lemma {:induction false} InterleaveSnoc(vars: map<string, string>, order: seq<string>, k: string)
    requires k in vars
    ensures Interleave(vars, order + [k]) == Interleave(vars, order) + [k, vars[k]]
  {
    if order == [] {
      assert Interleave(vars, [k]) == [k, vars[k]] + Interleave(vars, []);
    } else {
      assert (order + [k])[1..] == order[1..] + [k];
      InterleaveSnoc(vars, order[1..], k);
    }
  }

  // Properties of every sequence of calls.

  /** The error a call runs into, if any. */
  function ErrorOf(s: State, c: Call): Option<BuilderError> {
    match c
    case CopyFiles(src, _, _) =>
      (match Paths.ValidateRelativePath(src)
       case Some(e) => Some(BadCopySource(e))
       case None => None)
    case AddMCPServer(_) => if s.baseTemplate == MCP_GATEWAY then None else Some(NeedsMcpGateway)
    case DevContainerPrebuild(_) => if s.baseTemplate == DEVCONTAINER then None else Some(NeedsDevContainer)
    case DevContainerStart(_) => if s.baseTemplate == DEVCONTAINER then None else Some(NeedsDevContainer)
    case _ => None
  }

  /** The calls that append an instruction: the layer calls, unless rejected or empty. */
  predicate Appends(s: State, c: Call) {
    && (c.RunAs? || c.CopyFiles? || c.Workdir? || c.SetWorkdir? || c.SetUser? || c.Env? || c.SetEnvs?
        || c.Expose? || c.Entrypoint? || c.AddMCPServer? || c.DevContainerPrebuild?)
    && ErrorOf(s, c) == None
    && (c.SetEnvs? ==> c.vars != map[])
  }

  /** Call number `i` appends an instruction. */
  predicate AppendsAt(s: State, calls: seq<Call>, i: nat)
    requires i < |calls|
  {
    Appends(After(s, calls[..i]), calls[i])
  }

  ghost predicate NoAppendBetween(s: State, calls: seq<Call>, from: nat, to: nat)
    requires to <= |calls|
  {
    forall j :: from <= j < to ==> !AppendsAt(s, calls, j)
  }

  /** SkipCache was called after the last append, or the flag was set at the start and nothing was appended. */
  ghost predicate ForceRequested(s: State, calls: seq<Call>) {
    || (exists j :: 0 <= j < |calls| && calls[j].SkipCache? && NoAppendBetween(s, calls, j, |calls|))
    || (s.forceNextLayer && NoAppendBetween(s, calls, 0, |calls|))
  }

  lemma NoAppendSnoc(s: State, calls: seq<Call>, from: nat)
    requires calls != [] && from < |calls|
    ensures NoAppendBetween(s, calls, from, |calls|) <==>
      NoAppendBetween(s, calls[..|calls| - 1], from, |calls| - 1) && !AppendsAt(s, calls, |calls| - 1)
  {
    hide Appends, After;
    var before := calls[..|calls| - 1];
    forall j | from <= j < |before| ensures AppendsAt(s, before, j) == AppendsAt(s, calls, j) {
      assert before[..j] == calls[..j];
    }
  }

  /** The flag is pending exactly when SkipCache was called since the previous append. */
  lemma {:induction false} PendingForce(s: State, calls: seq<Call>)
    ensures After(s, calls).forceNextLayer <==> ForceRequested(s, calls)
  {
    if calls != [] {
      var last := |calls| - 1;
      var before := calls[..last];
      PendingForce(s, before);
      ForceRequestedSnoc(s, calls);
      AppendingCall(After(s, before), calls[last]);
    }
  }

  lemma ForceRequestedSnoc(s: State, calls: seq<Call>)
    requires calls != []
    ensures ForceRequested(s, calls) <==>
      calls[|calls| - 1].SkipCache?
      || (ForceRequested(s, calls[..|calls| - 1]) && !AppendsAt(s, calls, |calls| - 1))
  {
    hide After;
    var last := |calls| - 1;
    var before := calls[..last];
    forall j | 0 <= j < |calls|
      ensures NoAppendBetween(s, calls, j, |calls|) <==>
        NoAppendBetween(s, before, j, last) && !AppendsAt(s, calls, last)
    {
      NoAppendSnoc(s, calls, j);
    }
    if ForceRequested(s, before) && !AppendsAt(s, calls, last) {
      if j :| 0 <= j < last && before[j].SkipCache? && NoAppendBetween(s, before, j, last) {
        assert calls[j].SkipCache? && NoAppendBetween(s, calls, j, |calls|);
      }
    }
    if calls[last].SkipCache? {
      assert NoAppendBetween(s, calls, last, |calls|);
    }
    if ForceRequested(s, calls) && !calls[last].SkipCache? {
      if j :| 0 <= j < |calls| && calls[j].SkipCache? && NoAppendBetween(s, calls, j, |calls|) {
        assert before[j].SkipCache? && NoAppendBetween(s, before, j, last);
      }
    }
  }

  /** One call: what it appends, what it does to the flag, and to the error. */
  lemma AppendingCall(s: State, c: Call)
    ensures Appends(s, c) ==>
      && |Next(s, c).instructions| == |s.instructions| + 1
      && s.instructions <= Next(s, c).instructions
      && Next(s, c).instructions[|s.instructions|].force == s.forceNextLayer
      && !Next(s, c).forceNextLayer
    ensures !Appends(s, c) ==>
      && Next(s, c).instructions == s.instructions
      && Next(s, c).forceNextLayer == (s.forceNextLayer || c.SkipCache?)
    ensures Next(s, c).err == if s.err == None then ErrorOf(s, c) else s.err
  {
  }

  /**
   * Over any sequence of calls, the instruction that call `i` appends is forced exactly when SkipCache
   * was called since the previous append. Rejected or empty calls do not use the flag up.
   */
  lemma ForceMarksTheNextLayer(s: State, calls: seq<Call>, i: nat)
    requires i < |calls|
    ensures var before, after := After(s, calls[..i]), After(s, calls[..i + 1]);
      if AppendsAt(s, calls, i) then
        && |after.instructions| == |before.instructions| + 1
        && before.instructions <= after.instructions
        && (after.instructions[|before.instructions|].force <==> ForceRequested(s, calls[..i]))
      else after.instructions == before.instructions
  {
    assert calls[..i + 1][..i] == calls[..i];
    PendingForce(s, calls[..i]);
    AppendingCall(After(s, calls[..i]), calls[i]);
  }

  /** The instruction list only grows. */
  lemma {:induction false} InstructionsOnlyGrow(s: State, calls: seq<Call>, i: nat)
    requires i <= |calls|
    ensures After(s, calls[..i]).instructions <= After(s, calls).instructions
    decreases |calls|
  {
    if i == |calls| {
      assert calls[..i] == calls;
    } else {
      var last := |calls| - 1;
      InstructionsOnlyGrow(s, calls[..last], i);
      assert calls[..last][..i] == calls[..i];
      AppendingCall(After(s, calls[..last]), calls[last]);
    }
  }

  /** The error of call number `i`. */
  function ErrorAt(s: State, calls: seq<Call>, i: nat): Option<BuilderError>
    requires i < |calls|
  {
    ErrorOf(After(s, calls[..i]), calls[i])
  }

  /** The stored error is that of the first failing call `e`, and is never replaced or cleared. */
  lemma {:induction false} FirstErrorSticks(s: State, calls: seq<Call>, e: nat)
    requires s.err == None && e <= |calls|
    requires forall j :: 0 <= j < e ==> ErrorAt(s, calls, j) == None
    requires e < |calls| ==> ErrorAt(s, calls, e).Some?
    ensures After(s, calls).err == if e < |calls| then ErrorAt(s, calls, e) else None
  {
    if calls != [] {
      var last := |calls| - 1;
      var before := calls[..last];
      forall j | 0 <= j < last ensures ErrorAt(s, before, j) == ErrorAt(s, calls, j) {
        assert before[..j] == calls[..j];
      }
      FirstErrorSticks(s, before, if e <= last then e else last);
      AppendingCall(After(s, before), calls[last]);
      hide Next, ErrorOf, Appends;
      assert ErrorAt(s, calls, last) == ErrorOf(After(s, before), calls[last]);
      assert After(s, calls) == Next(After(s, before), calls[last]);
    }
  }

  /** At most one of image and template is chosen by the From calls; a Dockerfile FROM line does not keep this. */
  ghost predicate OneBase(s: State) { s.baseImage == "" || s.baseTemplate == "" }

  /** One call breaks it exactly when it is a Dockerfile FROM with an image on top of a base template. */
  lemma OneBaseStep(s: State, c: Call)
    requires OneBase(s)
    ensures OneBase(Next(s, c)) <==> !(c.DockerfileFrom? && c.image != "" && s.baseTemplate != "")
  {
  }

  lemma {:induction false} OneBaseKept(s: State, calls: seq<Call>)
    requires OneBase(s) && forall c :: c in calls ==> !c.DockerfileFrom?
    ensures OneBase(After(s, calls))
  {
    if calls != [] {
      var last := |calls| - 1;
      OneBaseKept(s, calls[..last]);
      assert calls[last] in calls;
      OneBaseStep(After(s, calls[..last]), calls[last]);
      hide Next;
    }
  }

  lemma DockerfileFromKeepsTemplate(s: State, id: string, image: string)
    requires id != "" && image != ""
    ensures !OneBase(After(s, [Call.FromTemplate(id), DockerfileFrom(image)]))
  {
    var calls := [Call.FromTemplate(id), DockerfileFrom(image)];
    assert calls[..1] == [calls[0]] && calls[..1][..0] == [];
    assert After(s, calls[..1]) == Next(s, calls[0]);
  }
}
