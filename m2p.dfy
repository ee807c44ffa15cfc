/**
 * mash2pointcloud/m2p.py: turn the selected MASH network into an nParticle
 * point cloud and export it as Alembic.
 *
 * Maya is the host: the selection, node types, the scene's node list before
 * and after the particle system is created, the file dialog's answer, and
 * whether `AbcExport` raised and which files exist afterwards are all
 * parameters. What the script asks of Maya while building (attributes,
 * expressions) is recorded as a list of host calls.
 */
module M2p {
  import opened Wrappers
  import opened Strings

  // ---------------------------------------------------------------------------
  // get_mash_network

  /** The node type of a MASH network node. */
  const MashWaiter := "MASH_Waiter"

  /**
   * `get_mash_network`: exactly one node must be selected and it must be a
   * MASH network; otherwise ValueError.
   */
  function MashNetwork(selection: seq<string>, nodeType: string -> string): (r: Result<string>)
    ensures r.Ok? <==> |selection| == 1 && nodeType(selection[0]) == MashWaiter
    ensures r.Ok? ==> r.value == selection[0]
    ensures r.Err? ==> r.error == ValueError
  {
    if |selection| > 1 || |selection| == 0 then Err(ValueError)
    else if nodeType(selection[0]) != MashWaiter then Err(ValueError)
    else Ok(selection[0])
  }

  // ---------------------------------------------------------------------------
  // export_abc

  /** The option text one loop of `export_abc` builds: "<flag> <x> " per item, in order. */
  function Flags(flag: string, xs: seq<string>): string {
    if xs == [] then ""
    else Flags(flag, xs[..|xs| - 1]) + flag + " " + xs[|xs| - 1] + " "
  }

  /** The words of those options: the flag, then the item, for every item. */
  function Pairs(flag: string, xs: seq<string>): (w: seq<string>)
    ensures |w| == 2 * |xs|
  {
    if xs == [] then [] else Pairs(flag, xs[..|xs| - 1]) + [flag, xs[|xs| - 1]]
  }

  /** The fixed flags as the source spells them, one literal per flag. */
  const FixedFlags := "-uvWrite " + "-writeFaceSets " + "-worldSpace " + "-writeVisibility " + "-stripNamespaces " + "-autoSubd " + "-dataFormat " + "ogawa "

  /**
   * `frame_range or [1, 1]` formatted as "<first> <second>": an absent or
   * empty range is "1 1"; a range with one value raises IndexError.
   */
  function FrameRangeText(frameRange: seq<int>): (r: Result<string>)
    ensures r.Err? <==> |frameRange| == 1
    ensures r.Err? ==> r.error == IndexError
  {
    if frameRange == [] then Ok("1 1")
    else if |frameRange| < 2 then Err(IndexError)
    else Ok(IntToString(frameRange[0]) + " " + IntToString(frameRange[1]))
  }

  /**
   * The `-j` argument of `AbcExport`: the frame range, the (always empty)
   * frame relative samples, the attributes, the fixed flags, the roots and
   * the file. The samples the caller passes take no part in it.
   */
  function ExportCommand(meshs: seq<string>, path: string, attributes: seq<string>, rangeText: string): string {
    "-frameRange " + rangeText + " " + "" + Flags("-attr", attributes) + FixedFlags + Flags("-root", meshs) + "-file " + path
  }

  /**
   * `export_abc`. `attributes=None` is the empty list (both are falsy) and
   * so is `frame_range=None`. `raised` says whether `AbcExport` raised, and
   * `written` is the set of files that exist once it returned. The command
   * handed to `AbcExport` is returned beside the result ("" when the frame
   * range failed before it was built).
   */
  method ExportAbc(meshs: seq<string>, path: string, attributes: seq<string>, frameRange: seq<int>, frs: seq<string>,
                   raised: bool, written: set<string>)
    returns (r: Result<string>, command: string)
    ensures FrameRangeText(frameRange).Err? ==> r == Err(IndexError) && command == ""
    ensures FrameRangeText(frameRange).Ok? ==>
      command == ExportCommand(meshs, path, attributes, FrameRangeText(frameRange).value) &&
      r == (if raised || path !in written then Err(RuntimeError) else Ok(path))
  {
    var abcMeshs := "";
    for i := 0 to |meshs|
      invariant abcMeshs == Flags("-root", meshs[..i])
    {
      assert meshs[..i + 1][..i] == meshs[..i];
      abcMeshs := abcMeshs + "-root " + meshs[i] + " ";
    }
    assert meshs[..|meshs|] == meshs;
    var abcAttrs := "";
    for i := 0 to |attributes|
      invariant abcAttrs == Flags("-attr", attributes[..i])
    {
      assert attributes[..i + 1][..i] == attributes[..i];
      abcAttrs := abcAttrs + "-attr " + attributes[i] + " ";
    }
    assert attributes[..|attributes|] == attributes;
    var range := FrameRangeText(frameRange);
    if range.Err? {
      return Err(range.error), "";
    }
    // `frs` is rebound to "" before it is read, so the samples never reach the command.
    var samples := "";
    command := "-frameRange " + range.value + " " + samples + abcAttrs + FixedFlags + abcMeshs + "-file " + path;
    if raised {
      return Err(RuntimeError), command;
    }
    if path !in written {
      return Err(RuntimeError), command;
    }
    return Ok(path), command;
  }

  /** The options of one loop, followed by more words, are the words of both. */
  lemma {:induction false} FlagsThen(flag: string, xs: seq<string>, tail: seq<string>)
    requires tail != []
    ensures Flags(flag, xs) + Join(tail, " ") == Join(Pairs(flag, xs) + tail, " ")
    decreases |xs|
  {
    if xs != [] {
      var init := xs[..|xs| - 1];
      var x := xs[|xs| - 1];
      var more := [flag, x] + tail;
      FlagsThen(flag, init, more);
      JoinCons(flag, [x] + tail, " ");
      JoinCons(x, tail, " ");
      assert [flag] + ([x] + tail) == more;
      assert Join(more, " ") == flag + " " + x + " " + Join(tail, " ");
      assert Flags(flag, xs) + Join(tail, " ") == Flags(flag, init) + Join(more, " ");
      assert Pairs(flag, init) + more == Pairs(flag, xs) + tail;
    } else {
      assert Pairs(flag, xs) + tail == tail;
    }
  }

  lemma {:induction false} PairsFree(flag: string, xs: seq<string>)
    requires Free(flag, ' ') && forall k :: 0 <= k < |xs| ==> Free(xs[k], ' ')
    ensures forall k :: 0 <= k < |Pairs(flag, xs)| ==> Free(Pairs(flag, xs)[k], ' ')
    decreases |xs|
  {
    if xs != [] {
      PairsFree(flag, xs[..|xs| - 1]);
    }
  }

  /**
   * Reading one loop's text back: when neither the flag nor any item holds
   * a space, splitting on spaces gives the flag and the item for every
   * item, in order, and the empty word after the last space.
   */
  lemma FlagsReadBack(flag: string, xs: seq<string>)
    requires Free(flag, ' ') && forall k :: 0 <= k < |xs| ==> Free(xs[k], ' ')
    ensures Split(Flags(flag, xs), " ") == Pairs(flag, xs) + [""]
  {
    FlagsThen(flag, xs, [""]);
    assert Flags(flag, xs) + Join([""], " ") == Flags(flag, xs);
    var w := Pairs(flag, xs) + [""];
    PairsFree(flag, xs);
    forall k | 0 <= k < |w| ensures Free(w[k], ' ') {
      if k < |Pairs(flag, xs)| {
        assert w[k] == Pairs(flag, xs)[k];
      }
    }
    SplitJoinFree(w, ' ');
  }

  /**
   * The command starts with the frame range and ends with the file; the
   * attribute options come before the fixed flags and the roots after them.
   */
  lemma CommandLayout(meshs: seq<string>, path: string, attributes: seq<string>, frameRange: seq<int>)
    requires FrameRangeText(frameRange).Ok?
    ensures var c := ExportCommand(meshs, path, attributes, FrameRangeText(frameRange).value);
      var head := "-frameRange " + FrameRangeText(frameRange).value + " ";
      StartsWith(c, head + Flags("-attr", attributes) + FixedFlags) && EndsWith(c, Flags("-root", meshs) + "-file " + path)
  {
    var rt := FrameRangeText(frameRange).value;
    Halves("-frameRange ", rt, " ", "", Flags("-attr", attributes), FixedFlags, Flags("-root", meshs), "-file ", path);
  }

  lemma Halves(h: string, r: string, sp: string, e: string, x: string, f: string, y: string, fl: string, p: string)
    requires e == ""
    ensures var c := h + r + sp + e + x + f + y + fl + p;
      StartsWith(c, h + r + sp + x + f) && EndsWith(c, y + fl + p)
  {
    var c := h + r + sp + e + x + f + y + fl + p;
    var before := h + r + sp + x + f;
    var after := y + fl + p;
    assert c == before + after;
    assert c[..|before|] == before;
    assert c[|c| - |after|..] == after;
  }

  /** The pairs list the flag before every item, in the order given. */
  lemma {:induction false} PairsAt(flag: string, xs: seq<string>)
    ensures forall i :: 0 <= i < |xs| ==> Pairs(flag, xs)[2 * i] == flag && Pairs(flag, xs)[2 * i + 1] == xs[i]
    decreases |xs|
  {
    if xs != [] {
      PairsAt(flag, xs[..|xs| - 1]);
    }
  }

  // ---------------------------------------------------------------------------
  // ParticleSystem

  /** The two nodes `ParticleSystem.build` looks for among the new nodes. */
  datatype Role = Nucleus | Emitter

  /** A new node is taken as the nucleus when its name holds "nucleus", else as the emitter when it holds "emitter". */
  predicate Plays(role: Role, node: string) {
    match role
    case Nucleus => Contains(node, "nucleus")
    case Emitter => !Contains(node, "nucleus") && Contains(node, "emitter")
  }

  /** The field `build`'s loop leaves for one role: the last node playing it, else the value it had. */
  function LastPlaying(role: Role, nodes: seq<string>, initial: string): string {
    if nodes == [] then initial
    else if Plays(role, nodes[|nodes| - 1]) then nodes[|nodes| - 1]
    else LastPlaying(role, nodes[..|nodes| - 1], initial)
  }

  /** Later matches win: the last node playing the role is the one kept. */
  lemma {:induction false} LastPlayingIs(role: Role, nodes: seq<string>, initial: string, i: nat)
    requires i < |nodes| && Plays(role, nodes[i])
    requires forall j :: i < j < |nodes| ==> !Plays(role, nodes[j])
    ensures LastPlaying(role, nodes, initial) == nodes[i]
    decreases |nodes|
  {
    if i < |nodes| - 1 {
      LastPlayingIs(role, nodes[..|nodes| - 1], initial, i);
    }
  }

  /** Without any node playing the role the field keeps its value. */
  lemma {:induction false} LastPlayingNone(role: Role, nodes: seq<string>, initial: string)
    requires forall j :: 0 <= j < |nodes| ==> !Plays(role, nodes[j])
    ensures LastPlaying(role, nodes, initial) == initial
    decreases |nodes|
  {
    if nodes != [] {
      LastPlayingNone(role, nodes[..|nodes| - 1], initial);
    }
  }

  /** `[x for x in sel_after if x not in set(sel_before)]` */
  function NewNodes(before: seq<string>, after: seq<string>): seq<string> {
    if after == [] then []
    else
      var init := NewNodes(before, after[..|after| - 1]);
      if after[|after| - 1] in before then init else init + [after[|after| - 1]]
  }

  lemma {:induction false} NewNodesMembers(before: seq<string>, after: seq<string>)
    ensures forall x :: x in NewNodes(before, after) <==> x in after && x !in before
    decreases |after|
  {
    if after != [] {
      NewNodesMembers(before, after[..|after| - 1]);
      assert after == after[..|after| - 1] + [after[|after| - 1]];
    }
  }

  /**
   * `ParticleSystem`. The node names `cmds.emitter` and `cmds.nParticle`
   * create are host answers; "" stands for `None`. `deleted` records that
   * `delete` ran (its host calls are not modelled).
   */
  class ParticleSystem {
    const name: string
    const shape: string
    var nucleus: string
    var emitter: string
    var deleted: bool

    constructor(name: string)
      ensures this.name == name && shape == name + "Shape"
      ensures nucleus == "" && emitter == "" && !deleted
    {
      this.name := name;
      shape := name + "Shape";
      nucleus := "";
      emitter := "";
      deleted := false;
    }

    /**
     * `build`: `created` is the emitter `cmds.emitter` returned; `before`
     * and `after` are the scene's nodes around the creation. Among the new
     * nodes the last holding "nucleus" becomes the nucleus and the last
     * other one holding "emitter" becomes the emitter. With no nucleus (or
     * no emitter) the system is deleted and ValueError raised.
     */
    method Build(before: seq<string>, after: seq<string>, created: string) returns (outcome: Outcome)
      modifies this
      ensures var nodes := NewNodes(before, after);
        nucleus == LastPlaying(Nucleus, nodes, old(nucleus)) &&
        emitter == LastPlaying(Emitter, nodes, created)
      ensures outcome == (if nucleus == "" || emitter == "" then Fail(ValueError) else Pass)
      ensures deleted == (old(deleted) || outcome.Fail?)
    {
      emitter := created;
      var nodes := NewNodes(before, after);
      ghost var nucleus0 := nucleus;
      for i := 0 to |nodes|
        invariant deleted == old(deleted)
      invariant nucleus == LastPlaying(Nucleus, nodes[..i], nucleus0)
        invariant emitter == LastPlaying(Emitter, nodes[..i], created)
      {
        assert nodes[..i + 1][..i] == nodes[..i];
        if Contains(nodes[i], "nucleus") {
          nucleus := nodes[i];
        } else if Contains(nodes[i], "emitter") {
          emitter := nodes[i];
        }
      }
      assert nodes[..|nodes|] == nodes;
      if nucleus == "" {
        deleted := true;
        return Fail(ValueError);
      }
      if emitter == "" {
        deleted := true;
        return Fail(ValueError);
      }
      return Pass;
    }
  }

  /** A build with no new node holding "nucleus" fails with ValueError. */
  lemma NoNucleusFails(before: seq<string>, after: seq<string>)
    requires forall x :: x in after && x !in before ==> !Contains(x, "nucleus")
    ensures LastPlaying(Nucleus, NewNodes(before, after), "") == ""
  {
    var nodes := NewNodes(before, after);
    NewNodesMembers(before, after);
    forall j | 0 <= j < |nodes| ensures !Plays(Nucleus, nodes[j]) {
      assert nodes[j] in nodes;
    }
    LastPlayingNone(Nucleus, nodes, "");
  }

  // ---------------------------------------------------------------------------
  // Scene

  /** One entry of `config["build"]["particleSystem"]`, in the dictionary's order. */
  datatype AttrConfig = AttrConfig(name: string, dataType: string, mashAttr: string)

  /** The parts of the scene configuration the code reads. */
  datatype Config = Config(particleAttrs: seq<AttrConfig>, exportAttributes: seq<string>, frameRange: seq<int>, frameRelativeSamples: seq<string>)

  /** The host calls `Scene.build` makes for the configured attributes. */
  datatype HostCall = CreateAttr(shape: string, attr: string, dataType: string) | CreateExpression(shape: string, expression: string)

  /** "<shape>.<attr> = <network>.<mashAttr>;" */
  function Expression(shape: string, attr: string, network: string, mashAttr: string): string {
    shape + "." + attr + " = " + network + "." + mashAttr + ";"
  }

  /** The calls for one configured attribute: it is always created; an expression is added only when it names a MASH attribute. */
  function CallsFor(shape: string, network: string, a: AttrConfig): seq<HostCall> {
    [CreateAttr(shape, a.name, a.dataType)] +
    if a.mashAttr != "" then [CreateExpression(shape, Expression(shape, a.name, network, a.mashAttr))] else []
  }

  function AllCalls(shape: string, network: string, attrs: seq<AttrConfig>): seq<HostCall> {
    if attrs == [] then [] else AllCalls(shape, network, attrs[..|attrs| - 1]) + CallsFor(shape, network, attrs[|attrs| - 1])
  }

  function Created(calls: seq<HostCall>): seq<string> {
    if calls == [] then []
    else Created(calls[..|calls| - 1]) + if calls[|calls| - 1].CreateAttr? then [calls[|calls| - 1].attr] else []
  }

  function ExpressionCount(calls: seq<HostCall>): nat {
    if calls == [] then 0
    else ExpressionCount(calls[..|calls| - 1]) + if calls[|calls| - 1].CreateExpression? then 1 else 0
  }

  function Linked(attrs: seq<AttrConfig>): nat {
    if attrs == [] then 0 else Linked(attrs[..|attrs| - 1]) + if attrs[|attrs| - 1].mashAttr != "" then 1 else 0
  }

  function Names(attrs: seq<AttrConfig>): (r: seq<string>)
    ensures |r| == |attrs| && forall i :: 0 <= i < |attrs| ==> r[i] == attrs[i].name
  {
    seq(|attrs|, i requires 0 <= i < |attrs| => attrs[i].name)
  }

  lemma {:induction false} CreatedAppend(a: seq<HostCall>, b: seq<HostCall>)
    ensures Created(a + b) == Created(a) + Created(b)
    ensures ExpressionCount(a + b) == ExpressionCount(a) + ExpressionCount(b)
    decreases |b|
  {
    if b == [] {
      assert a + b == a;
    } else {
      var init := b[..|b| - 1];
      var last := b[|b| - 1];
      CreatedAppend(a, init);
      assert (a + b)[..|a + b| - 1] == a + init;
      assert (a + b)[|a + b| - 1] == last;
      assert Created(a + b) == Created(a + init) + Created([last]) by {
        assert [last][..0] == [];
      }
      assert Created(b) == Created(init) + Created([last]) by {
        assert [last][..0] == [];
      }
      assert ExpressionCount([last]) == if last.CreateExpression? then 1 else 0 by {
        assert [last][..0] == [];
      }
    }
  }

  /**
   * Every configured attribute is created, in order, and exactly one
   * expression is added per attribute that names a MASH attribute.
   */
  lemma {:induction false} CallsCreateEveryAttr(shape: string, network: string, attrs: seq<AttrConfig>)
    ensures Created(AllCalls(shape, network, attrs)) == Names(attrs)
    ensures ExpressionCount(AllCalls(shape, network, attrs)) == Linked(attrs)
    decreases |attrs|
  {
    if attrs != [] {
      var init := attrs[..|attrs| - 1];
      var a := attrs[|attrs| - 1];
      CallsCreateEveryAttr(shape, network, init);
      CreatedAppend(AllCalls(shape, network, init), CallsFor(shape, network, a));
      var one := CallsFor(shape, network, a);
      var made := [CreateAttr(shape, a.name, a.dataType)];
      assert made[..0] == [];
      assert Created(made) == [a.name] && ExpressionCount(made) == 0;
      if a.mashAttr != "" {
        assert one[..1] == made;
      } else {
        assert one == made;
      }
      assert Names(attrs) == Names(init) + [a.name];
    }
  }

  /**
   * `Scene`. `psys` is `None` until `build` created it, `network` is ""
   * until a MASH network was found, and `calls` lists the attribute and
   * expression calls `build` made.
   */
  class Scene {
    var psys: ParticleSystem?
    var network: string
    const config: Config
    var calls: seq<HostCall>

    constructor(config: Config)
      ensures psys == null && network == "" && this.config == config && calls == []
    {
      psys := null;
      network := "";
      this.config := config;
      calls := [];
    }

    /**
     * `build`: find the MASH network, build "<network>_pointcloud", then
     * create each configured attribute on its shape and an expression for
     * each that names a MASH attribute.
     */
    method Build(selection: seq<string>, nodeType: string -> string, before: seq<string>, after: seq<string>, created: string)
      returns (outcome: Outcome)
      modifies this
      ensures var found := MashNetwork(selection, nodeType);
        if found.Err? then outcome == Fail(found.error) && psys == old(psys) && network == old(network) && calls == old(calls)
        else
          network == found.value && psys != null && fresh(psys) && psys.name == found.value + "_pointcloud" &&
          psys.nucleus == LastPlaying(Nucleus, NewNodes(before, after), "") &&
          psys.emitter == LastPlaying(Emitter, NewNodes(before, after), created) &&
          (outcome.Pass? <==> psys.nucleus != "" && psys.emitter != "") &&
          psys.deleted == outcome.Fail? &&
          (outcome.Fail? ==> outcome.error == ValueError && calls == old(calls)) &&
          (outcome.Pass? ==> calls == old(calls) + AllCalls(psys.shape, network, config.particleAttrs))
    {
      var found := MashNetwork(selection, nodeType);
      if found.Err? {
        return Fail(found.error);
      }
      network := found.value;
      var ps := new ParticleSystem(network + "_pointcloud");
      psys := ps;
      var built := ps.Build(before, after, created);
      if built.Fail? {
        return built;
      }
      AddAttributes(ps.shape);
      return Pass;
    }

    /** The loop of `build` over the configured attributes: each is created on `shape`, with an expression when it names a MASH attribute. */
    method AddAttributes(shape: string)
      modifies this
      ensures calls == old(calls) + AllCalls(shape, network, config.particleAttrs)
      ensures psys == old(psys) && network == old(network)
    {
      var attrs := config.particleAttrs;
      ghost var calls0 := calls;
      for i := 0 to |attrs|
        invariant psys == old(psys) && network == old(network)
        invariant calls == calls0 + AllCalls(shape, network, attrs[..i])
      {
        assert attrs[..i + 1][..i] == attrs[..i];
        calls := calls + [CreateAttr(shape, attrs[i].name, attrs[i].dataType)];
        if attrs[i].mashAttr != "" {
          calls := calls + [CreateExpression(shape, Expression(shape, attrs[i].name, network, attrs[i].mashAttr))];
        }
      }
      assert attrs[..|attrs|] == attrs;
    }

    /**
     * `export`: `dialog` is what `cmds.fileDialog2` returns, `None` when the
     * user cancels and otherwise the list of chosen paths, of which the first
     * is read. Indexing `None` raises TypeError and an empty list IndexError;
     * an empty path raises InterruptedError and a path not ending with ".abc"
     * ValueError; otherwise the particle system is exported with the
     * configured attributes, frame range and samples. Without a built particle
     * system `self.psys.name` raises AttributeError.
     */
    method Export(dialog: Option<seq<string>>, raised: bool, written: set<string>) returns (r: Result<string>, command: string)
      ensures dialog.None? ==> r == Err(TypeError) && command == ""
      ensures dialog == Some([]) ==> r == Err(IndexError) && command == ""
      ensures dialog.Some? && dialog.value != [] ==>
        var answer := dialog.value[0];
        && (answer == "" ==> r == Err(InterruptedError) && command == "")
        && (answer != "" && !EndsWith(answer, ".abc") ==> r == Err(ValueError) && command == "")
        && (answer != "" && EndsWith(answer, ".abc") && psys == null ==> r == Err(AttributeError) && command == "")
        && (answer != "" && EndsWith(answer, ".abc") && psys != null ==>
          match FrameRangeText(config.frameRange)
          case Err(e) => r == Err(e) && command == ""
          case Ok(range) =>
            command == ExportCommand([psys.name], answer, config.exportAttributes, range) &&
            r == (if raised || answer !in written then Err(RuntimeError) else Ok(answer)))
      ensures r.Ok? ==> dialog.Some? && dialog.value != [] && r.value == dialog.value[0] && EndsWith(r.value, ".abc")
    {
      if dialog.None? {
        return Err(TypeError), "";
      }
      if dialog.value == [] {
        return Err(IndexError), "";
      }
      var answer := dialog.value[0];
      if answer == "" {
        return Err(InterruptedError), "";
      }
      if !EndsWith(answer, ".abc") {
        return Err(ValueError), "";
      }
      if psys == null {
        return Err(AttributeError), "";
      }
      var exported;
      exported, command := ExportAbc([psys.name], answer, config.exportAttributes, config.frameRange,
                                     config.frameRelativeSamples, raised, written);
      if exported.Err? {
        return exported, command;
      }
      return Ok(answer), command;
    }
  }
}
