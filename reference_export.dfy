/**
 * referenceExporter/referenceBakedExport.py: exporting the selected
 * referenced object to a new .ma file with its namespace removed for the
 * time of the export.
 *
 * The Maya session is a class whose fields are the current namespace, the
 * relative-names flag, the files on disk and the exports written so far.
 * The user's answers (confirmation button, file dialog result) and whether
 * the export command raises are parameters.
 */
module ReferenceExport {
  import opened Wrappers
  import opened Strings

  /** `extract_namespace_from_node_path`: the text before the first ":", without leading "|". */
  function ExtractNamespace(nodePath: string): string {
    LStrip(Split(nodePath, ":")[0], '|')
  }

  /** `nodePath` is `k` "|" characters, then `ns`, then the end of the path or a ":". */
  predicate PipesThen(nodePath: string, k: nat, ns: string) {
    k + |ns| <= |nodePath| && (forall j :: 0 <= j < k ==> nodePath[j] == '|') &&
    nodePath[k..k + |ns|] == ns && (k + |ns| == |nodePath| || nodePath[k + |ns|] == ':')
  }

  /**
   * The namespace is the first ":"-free stretch of the path after its
   * leading "|" characters: it holds no ":", does not start with "|", and
   * is followed by a ":" or by the end of the path.
   */
  lemma NamespaceShape(nodePath: string)
    ensures var ns := ExtractNamespace(nodePath);
      Free(ns, ':') && (ns == [] || ns[0] != '|') &&
      exists k :: PipesThen(nodePath, k, ns)
  {
    var head := Split(nodePath, ":")[0];
    SplitFirstPiece(nodePath, ':');
    var ns := LStrip(head, '|');
    var k := |head| - |ns|;
    assert ns == head[k..];
    forall j | 0 <= j < |ns| ensures ns[j] != ':' {
      assert ns[j] == head[k + j];
    }
    assert nodePath[k..k + |ns|] == ns;
    assert forall j :: 0 <= j < k ==> nodePath[j] == '|' by {
      forall j | 0 <= j < k ensures nodePath[j] == '|' {
        assert nodePath[j] == head[j];
      }
    }
    assert k + |ns| == |head|;
    assert PipesThen(nodePath, k, ns);
  }

  /** A path "|…|<namespace>:<rest>" gives back the namespace. */
  lemma NamespaceOfPath(pipes: string, ns: string, rest: string)
    requires forall j :: 0 <= j < |pipes| ==> pipes[j] == '|'
    requires Free(ns, ':') && (ns == [] || ns[0] != '|')
    ensures ExtractNamespace(pipes + ns + ":" + rest) == ns
  {
    var p := pipes + ns + ":" + rest;
    SplitFirstPiece(p, ':');
    var head := Split(p, ":")[0];
    assert p[|pipes + ns|] == ':';
    assert forall k :: 0 <= k < |head| ==> p[k] != ':' by {
      forall k | 0 <= k < |head| ensures p[k] != ':' {
        assert p[k] == head[k];
      }
    }
    assert |head| <= |pipes + ns|;
    forall j | 0 <= j < |pipes + ns| ensures p[j] != ':' {
      if j >= |pipes| {
        assert p[j] == ns[j - |pipes|];
      }
    }
    assert head == pipes + ns;
    LStripPrefix(pipes, ns);
  }

  lemma {:induction false} LStripPrefix(pipes: string, ns: string)
    requires forall j :: 0 <= j < |pipes| ==> pipes[j] == '|'
    requires ns == [] || ns[0] != '|'
    ensures LStrip(pipes + ns, '|') == ns
    decreases |pipes|
  {
    if pipes != [] {
      assert (pipes + ns)[1..] == pipes[1..] + ns;
      LStripPrefix(pipes[1..], ns);
    } else {
      assert pipes + ns == ns;
    }
  }

  /** The documented example: "|assetName:bouteilleBiere01" is in namespace "assetName". */
  lemma NamespaceExample(nodePath: string)
    requires nodePath == "|" + "assetName" + ":" + "bouteilleBiere01"
    ensures ExtractNamespace(nodePath) == "assetName"
  {
    NamespaceOfPath("|", "assetName", "bouteilleBiere01");
  }

  /** Without any ":", the whole path is the namespace, less its leading "|". */
  lemma NamespaceWithoutColon(nodePath: string)
    requires Free(nodePath, ':')
    ensures ExtractNamespace(nodePath) == LStrip(nodePath, '|')
  {
    SplitFirstPiece(nodePath, ':');
    var head := Split(nodePath, ":")[0];
    assert |head| == |nodePath|;
  }

  /** What `export_reference_as_baked` decides before touching the scene. */
  datatype Plan = Raise(error: PyError) | Stop | Export(target: string, namespace: string)

  /**
   * The guard sequence: a selection, a referenced first node, a
   * confirmation that is not "Cancel", a path from the dialog, and a path
   * that does not exist yet.
   */
  function PlanExport(selection: seq<string>, referenced: set<string>, answer: string, dialog: seq<string>, files: set<string>): Plan {
    if selection == [] then Raise(ValueError)
    else if selection[0] !in referenced then Raise(TypeError)
    else if answer == "Cancel" then Stop
    else if dialog == [] || dialog[0] == "" then Stop
    else if dialog[0] in files then Raise(FileExistsError)
    else Export(dialog[0], ExtractNamespace(selection[0]))
  }

  /**
   * An export happens exactly when every guard passes, to the path the
   * dialog gave, under the namespace of the first selected node; so an
   * existing file is never overwritten.
   */
  lemma PlanExportIff(selection: seq<string>, referenced: set<string>, answer: string, dialog: seq<string>, files: set<string>)
    ensures PlanExport(selection, referenced, answer, dialog, files).Export? <==>
      selection != [] && selection[0] in referenced && answer != "Cancel" && dialog != [] && dialog[0] != "" && dialog[0] !in files
    ensures PlanExport(selection, referenced, answer, dialog, files).Export? ==>
      var plan := PlanExport(selection, referenced, answer, dialog, files);
      plan.target == dialog[0] && plan.target !in files && plan.namespace == ExtractNamespace(selection[0])
    ensures selection == [] ==> PlanExport(selection, referenced, answer, dialog, files) == Raise(ValueError)
    ensures selection != [] && selection[0] !in referenced ==> PlanExport(selection, referenced, answer, dialog, files) == Raise(TypeError)
  {
  }

  class Session {
    /** The namespaces that exist in the scene. */
    const namespaces: set<string>
    var current: string
    var relative: bool
    var files: set<string>
    var exports: seq<(string, string)>

    constructor(namespaces: set<string>, current: string, relative: bool, files: set<string>)
      ensures this.namespaces == namespaces && this.current == current && this.relative == relative
      ensures this.files == files && exports == []
    {
      this.namespaces := namespaces;
      this.current := current;
      this.relative := relative;
      this.files := files;
      exports := [];
    }

    /**
     * `temporary_namespace_removal` around the export command. Setting a
     * namespace that does not exist raises before the `try`, leaving the
     * root namespace current; once inside the `try`, the root namespace and
     * absolute names are restored whether or not the export raises.
     */
    method ExportWithoutNamespace(target: string, namespace: string, exportRaises: bool) returns (outcome: Outcome)
      modifies this
      ensures namespace !in namespaces ==>
        outcome == Fail(RuntimeError) && current == ":" && relative == old(relative) && files == old(files) && exports == old(exports)
      ensures namespace in namespaces ==> current == ":" && !relative
      ensures namespace in namespaces && exportRaises ==>
        outcome == Fail(RuntimeError) && files == old(files) && exports == old(exports)
      ensures namespace in namespaces && !exportRaises ==>
        outcome == Pass && files == old(files) + {target} && exports == old(exports) + [(target, namespace)]
    {
      current := ":";
      if namespace !in namespaces {
        return Fail(RuntimeError);
      }
      current := namespace;
      relative := true;
      if exportRaises {
        outcome := Fail(RuntimeError);
      } else {
        files := files + {target};
        exports := exports + [(target, namespace)];
        outcome := Pass;
      }
      current := ":";
      relative := false;
    }

    /** `export_reference_as_baked` */
    method ExportReferenceAsBaked(selection: seq<string>, referenced: set<string>, answer: string, dialog: seq<string>, exportRaises: bool)
      returns (outcome: Outcome)
      modifies this
      ensures var plan := PlanExport(selection, referenced, answer, dialog, old(files));
        match plan
        case Raise(e) =>
          outcome == Fail(e) && files == old(files) && exports == old(exports) && current == old(current) && relative == old(relative)
        case Stop =>
          outcome == Pass && files == old(files) && exports == old(exports) && current == old(current) && relative == old(relative)
        case Export(target, ns) =>
          exports == old(exports) + (if outcome.Pass? then [(target, ns)] else []) &&
          files == old(files) + (if outcome.Pass? then {target} else {}) &&
          (outcome.Pass? <==> ns in namespaces && !exportRaises) && current == ":" &&
          (ns in namespaces ==> !relative) && (ns !in namespaces ==> relative == old(relative))
    {
      if selection == [] {
        return Fail(ValueError);
      }
      var node := selection[0];
      if node !in referenced {
        return Fail(TypeError);
      }
      if answer == "Cancel" {
        return Pass;
      }
      var target := if dialog == [] then "" else dialog[0];
      if target == "" {
        return Pass;
      }
      if target in files {
        return Fail(FileExistsError);
      }
      var ns := Split(node, ":")[0];
      ns := LStrip(ns, '|');
      outcome := ExportWithoutNamespace(target, ns, exportRaises);
    }
  }
}
