/** When a verification runs everything, and what it records, over whole runs with arbitrary edits. */
module FullValidation {
  import opened Common
  import opened GoalManager
  import opened GoalRuns
  import opened RegressionSuites
  import opened RegressionSoundness

  // ---------------------------------------------------- project configuration

  const TOOLS: seq<string> := ["eslint", "next", "postcss", "tailwind"]

  const LANGUAGES: seq<string> := ["js", "mjs", "ts"]

  function ToolConfig(tool: string, language: string): string {
    tool + ".config." + language
  }

  function TypeScriptConfig(middle: string): string {
    "tsconfig" + middle + ".json"
  }

  ghost predicate IsToolConfig(path: string) {
    exists tool, language :: tool in TOOLS && language in LANGUAGES && path == ToolConfig(tool, language)
  }

  ghost predicate IsTypeScriptConfig(path: string) {
    exists middle :: '/' !in middle && path == TypeScriptConfig(middle)
  }

  /** A file whose change can affect any goal. */
  ghost predicate ConfiguresProject(path: string) {
    || path in ["package.json", "pnpm-lock.yaml", "pnpm-workspace.yaml", "components.json"]
    || IsToolConfig(path) || IsTypeScriptConfig(path)
  }

  predicate OfTool(path: string, tool: string) {
    path == tool + ".config.js" || path == tool + ".config.mjs" || path == tool + ".config.ts"
  }

  lemma ToolConfigIs(path: string, tool: string)
    ensures OfTool(path, tool) <==> exists language :: language in LANGUAGES && path == ToolConfig(tool, language)
  {
    assert LANGUAGES[0] == "js" && LANGUAGES[1] == "mjs" && LANGUAGES[2] == "ts";
    assert ToolConfig(tool, "js") == tool + ".config.js";
    assert ToolConfig(tool, "mjs") == tool + ".config.mjs";
    assert ToolConfig(tool, "ts") == tool + ".config.ts";
  }

  lemma ToolConfigsAre(path: string)
    ensures IsToolConfig(path) <==>
            OfTool(path, "eslint") || OfTool(path, "next") || OfTool(path, "postcss") || OfTool(path, "tailwind")
  {
    assert TOOLS[0] == "eslint" && TOOLS[1] == "next" && TOOLS[2] == "postcss" && TOOLS[3] == "tailwind";
    ToolConfigIs(path, "eslint");
    ToolConfigIs(path, "next");
    ToolConfigIs(path, "postcss");
    ToolConfigIs(path, "tailwind");
  }

  lemma SpelledOut(path: string)
    ensures path in PROJECT_CONFIG_PATHS <==>
            || path in ["package.json", "pnpm-lock.yaml", "pnpm-workspace.yaml", "components.json"]
            || path == "tsconfig.json"
            || OfTool(path, "eslint") || OfTool(path, "next") || OfTool(path, "postcss") || OfTool(path, "tailwind")
  {
    SameName(path, "eslint", "eslint.config.js", "eslint.config.mjs", "eslint.config.ts");
    SameName(path, "next", "next.config.js", "next.config.mjs", "next.config.ts");
    SameName(path, "postcss", "postcss.config.js", "postcss.config.mjs", "postcss.config.ts");
    SameName(path, "tailwind", "tailwind.config.js", "tailwind.config.mjs", "tailwind.config.ts");
  }

  lemma SameName(path: string, tool: string, js: string, mjs: string, ts: string)
    requires js == tool + ".config.js" && mjs == tool + ".config.mjs" && ts == tool + ".config.ts"
    ensures OfTool(path, tool) <==> path == js || path == mjs || path == ts
  {
  }

  lemma TypeScriptConfigsAre(path: string)
    ensures '/' !in path && "tsconfig" <= path && |path| >= 5 && path[|path| - 5..] == ".json" <==>
            IsTypeScriptConfig(path)
  {
    if '/' !in path && "tsconfig" <= path && |path| >= 5 && path[|path| - 5..] == ".json" {
      assert path[|path| - 5] == path[|path| - 5..][0] == '.';
      assert path[..8] == "tsconfig";
      assert |path| - 5 >= 8;
      assert path == TypeScriptConfig(path[8..|path| - 5]);
    }
    if middle :| '/' !in middle && path == TypeScriptConfig(middle) {
      assert path[|path| - 5..] == ".json";
      assert path[..8] == "tsconfig";
    }
  }

  lemma PlainTypeScriptConfig(path: string)
    requires path == "tsconfig.json"
    ensures IsTypeScriptConfig(path)
  {
    assert path == TypeScriptConfig("");
  }

  /** The server's test for a change of configuration finds exactly these files. */
  lemma ConfigurationIs(path: string)
    ensures IsProjectConfig(path) <==> ConfiguresProject(path)
  {
    SpelledOut(path);
    ToolConfigsAre(path);
    TypeScriptConfigsAre(path);
    if path == "tsconfig.json" {
      PlainTypeScriptConfig(path);
    }
  }

  // ------------------------------------------------------- when everything runs

  /** Since the boundary of the current goal a configuration file was added, changed or deleted. */
  ghost predicate TouchesConfiguration(r: Run) {
    exists path :: !SameAt(r.start, r.files, path) && ConfiguresProject(path)
  }

  /** Since then some file changed that a verified goal had changed. */
  ghost predicate TouchesPriorWork(r: Run) {
    exists i, path :: 0 <= i < |r.changed| && path in r.changed[i] && !SameAt(r.start, r.files, path)
  }

  ghost predicate SomeClaimed(g: GoalGraph) {
    exists k :: 0 <= k < |g.goals| && g.goals[k].status == Claimed
  }

  ghost predicate AllElseVerified(g: GoalGraph) {
    forall k :: 0 <= k < |g.goals| ==> g.goals[k].status in {Claimed, Verified}
  }

  lemma {:induction false} UnionHas(sets: seq<set<string>>, x: string)
    ensures x in Union(sets) <==> exists i :: 0 <= i < |sets| && x in sets[i]
  {
    if sets != [] {
      UnionHas(sets[1..], x);
      if x in Union(sets[1..]) {
        var i :| 0 <= i < |sets[1..]| && x in sets[1..][i];
        assert x in sets[i + 1];
      }
      if i :| 0 < i < |sets| && x in sets[i] {
        assert x in sets[1..][i - 1];
      }
    }
  }

  /** What forces a full suite before the last goal, and for which reason. */
  lemma FullReasonIs(r: Run)
    ensures FullReason(r) ==
            if r.unknown then Some(LegacyCheckpointUnknownPaths)
            else if TouchesConfiguration(r) then Some(ProjectConfigChanged)
            else if TouchesPriorWork(r) then Some(PriorGoalFileChanged)
            else None
  {
    var changed, prior := Delta(r.start, r.files), Union(r.changed);
    assert (exists path :: path in changed && IsProjectConfig(path)) <==> TouchesConfiguration(r) by {
      forall path ensures path in changed && IsProjectConfig(path) <==>
                          !SameAt(r.start, r.files, path) && ConfiguresProject(path) {
        ConfigurationIs(path);
      }
    }
    assert changed * prior != {} <==> TouchesPriorWork(r) by {
      if changed * prior != {} {
        var path :| path in changed * prior;
        UnionHas(r.changed, path);
      }
      if i, path :| 0 <= i < |r.changed| && path in r.changed[i] && !SameAt(r.start, r.files, path) {
        UnionHas(r.changed, path);
        assert path in changed * prior;
      }
    }
  }

  lemma ClaimedAt(start: GoalGraph, p: Position)
    requires OnTrack(|start.goals|, p)
    ensures var g := StateAt(start, p.k, p.phase);
            && (SomeClaimed(g) <==> p.phase == Claimed)
            && (p.phase == Claimed ==> (AllElseVerified(g) <==> p.k + 1 == |start.goals|))
  {
    var g := StateAt(start, p.k, p.phase);
    if p.phase == Claimed {
      assert g.goals[p.k].status == Claimed;
      if p.k + 1 < |start.goals| {
        assert g.goals[p.k + 1].status == Pending;
      }
    }
  }

  /**
   Over every run: a suite exists exactly while a goal is claimed. It is full exactly for the last goal, after a
   boundary that cannot be trusted, and when since the goal's boundary a configuration file changed or a file that a
   verified goal had changed; and it gives the first of these as its reason.
   */
  lemma FullExactlyWhen(r: Run, events: seq<Event>)
    requires InitialRun(r)
    ensures var t := RunAll(r, events);
            var built := BuildRegressionSuite(t.graph, FullReason(t));
            && (built.Ok? <==> SomeClaimed(t.graph))
            && (built.Ok? ==>
                  && (built.value.mode == Full <==>
                        AllElseVerified(t.graph) || t.unknown || TouchesConfiguration(t) || TouchesPriorWork(t))
                  && built.value.reason ==
                     if AllElseVerified(t.graph) then FinalGoal
                     else if t.unknown then LegacyCheckpointUnknownPaths
                     else if TouchesConfiguration(t) then ProjectConfigChanged
                     else if TouchesPriorWork(t) then PriorGoalFileChanged
                     else GoalFocused)
  {
    var t := RunAll(r, events);
    var p := RunKeepsSound(r, events);
    FullReasonIs(t);
    ClaimedAt(r.graph, p);
    if p.phase == Claimed {
      SuiteAtClaim(r.graph, p.k, FullReason(t));
    } else {
      CurrentAt(r.graph, p.k, p.phase);
    }
  }

  // ---------------------------------------------------------------- distrust

  /** What restores trust in the boundary: a verification that passes, or a restart from a listed checkpoint. */
  ghost predicate Trusts(r: Run, e: Event) {
    (e.VerificationPassed? && Next(r, e) != r) || (e.Restart? && !e.legacy)
  }

  /** Once a resumption or a legacy restart has left the boundary untrusted, it stays so until trust is restored. */
  lemma {:induction false} DistrustLasts(r: Run, events: seq<Event>)
    requires r.unknown
    requires forall n :: 0 <= n < |events| ==> !Trusts(RunAll(r, events[..n]), events[n])
    ensures RunAll(r, events).unknown
  {
    if events != [] {
      var earlier := events[..|events| - 1];
      forall n | 0 <= n < |earlier| ensures !Trusts(RunAll(r, earlier[..n]), earlier[n]) {
        assert earlier[..n] == events[..n];
      }
      DistrustLasts(r, earlier);
      assert !Trusts(RunAll(r, earlier), events[|earlier|]);
    }
  }

  /** What distrusts: a resumption, a legacy restart, and a goal begun on files that drifted from the checkpoint. */
  lemma WhatDistrusts(r: Run, e: Event)
    ensures e.Resume? ==> Next(r, e).unknown
    ensures e.Restart? ==> (Next(r, e).unknown <==> e.legacy)
    ensures e.Begin? && CanBegin(r) ==>
              (Next(r, e).unknown <==> r.unknown || (r.checkpoint.Some? && r.files != r.checkpoint.value))
  {
  }

  // ------------------------------------------------------------ what is recorded

  /**
   A verification records for its goal every path on which the workspace differs from the last checkpoint, as long as
   the audit of a boundary that is not trusted tells the truth.
   */
  lemma ChangesAreRecorded(r: Run, events: seq<Event>, audited: set<string>)
    requires InitialRun(r)
    requires var t := RunAll(r, events);
             SomeClaimed(t.graph) && t.checkpoint.Some?
             && (t.unknown ==> Delta(t.checkpoint.value, t.files) <= audited)
    ensures var t := RunAll(r, events);
            var u := Next(t, VerificationPassed(audited));
            && |u.changed| == |t.changed| + 1 && u.changed[..|t.changed|] == t.changed
            && u.checkpoint == Some(t.files)
            && forall path :: !SameAt(t.checkpoint.value, t.files, path) ==> path in u.changed[|t.changed|]
  {
    var t := RunAll(r, events);
    var p := RunKeepsSound(r, events);
    ClaimedAt(r.graph, p);
    PassBuilds(t, r.graph, p);
    PassRecords(t, audited);
    var u := Next(t, VerificationPassed(audited));
    forall path | !SameAt(t.checkpoint.value, t.files, path) ensures path in u.changed[|t.changed|] {
      assert path in Delta(t.checkpoint.value, t.files);
    }
  }
}
