/** The one-shot migration out of the repository: where each file goes, and a plan whose execution
    loses no bytes and can be repeated. */
module StateMigration {
  import opened Options

  /** A path as its components. */
  type Path = seq<string>

  /** A rule of the move table: a whole directory, or one file at the top. */
  datatype Rule = Dir(name: string, target: Path) | File(name: string, target: Path)

  datatype Roots = Roots(state: Path, log: Path, tokens: Path, eval: Path)

  const TOKEN_SUFFIX := "_token.json"
  const SKIP_FILES := {".gitkeep", ".DS_Store"}

  function MoveRules(r: Roots): seq<Rule> {
    [Dir("learning", r.eval),
     Dir("artifacts", r.state + ["artifacts"]),
     Dir("services", r.state + ["services"]),
     Dir("obsidian", r.state + ["obsidian"]),
     Dir("scheduled", r.log + ["scheduled"]),
     File("control_plane.db", r.state + ["control_plane.db"]),
     File("runs.sqlite", r.state + ["runs.sqlite"]),
     File("langgraph_checkpoints.sqlite", r.state + ["langgraph_checkpoints.sqlite"]),
     File("repeated_error_memory.json", r.state + ["repeated_error_memory.json"]),
     File("audit.jsonl", r.log + ["audit.jsonl"]),
     File("ollama-auto.log", r.log + ["ollama-auto.log"]),
     File("ollama-auto.pid", r.log + ["ollama-auto.pid"])]
  }

  predicate EndsWith(s: string, suffix: string) {
    |suffix| <= |s| && s[|s| - |suffix|..] == suffix
  }

  predicate IsToken(rel: Path) { |rel| == 1 && EndsWith(rel[0], TOKEN_SUFFIX) }

  predicate Matches(rule: Rule, rel: Path) {
    match rule
    case Dir(name, _) => |rel| >= 2 && rel[0] == name
    case File(name, _) => rel == [name]
  }

  function Target(rule: Rule, rel: Path): Path
    requires Matches(rule, rel)
  {
    if rule.Dir? then rule.target + rel[1..] else rule.target
  }

  /** The first rule that matches decides. */
  function ByRules(rules: seq<Rule>, rel: Path): Option<Path> {
    if rules == [] then None
    else if Matches(rules[0], rel) then Some(Target(rules[0], rel))
    else ByRules(rules[1..], rel)
  }

  function Resolve(rules: seq<Rule>, tokens: Path, rel: Path): Option<Path> {
    if IsToken(rel) then Some(tokens + rel) else ByRules(rules, rel)
  }

  function ResolveDestination(roots: Roots, rel: Path): Option<Path> {
    Resolve(MoveRules(roots), roots.tokens, rel)
  }

  /** The move table, file by file: tokens at the top, five directories, seven files at the top, and nothing
      else has a destination. */
  lemma TableSays(roots: Roots, rel: Path)
    requires rel != []
    ensures var to, top, rest := ResolveDestination(roots, rel), rel[0], rel[1..];
            if |rel| >= 2 then
              to == if top == "learning" then Some(roots.eval + rest)
                    else if top == "artifacts" || top == "services" || top == "obsidian" then Some(roots.state + rel)
                    else if top == "scheduled" then Some(roots.log + rel)
                    else None
            else if |top| >= 11 && top[|top| - 11..] == "_token.json" then to == Some(roots.tokens + rel)
            else
              to == if top in {"control_plane.db", "runs.sqlite", "langgraph_checkpoints.sqlite", "repeated_error_memory.json"}
                    then Some(roots.state + rel)
                    else if top in {"audit.jsonl", "ollama-auto.log", "ollama-auto.pid"} then Some(roots.log + rel)
                    else None
  {
    var rules, top := MoveRules(roots), rel[0];
    assert rel == [top] + rel[1..];
    assert |TOKEN_SUFFIX| == 11;
    if |rel| >= 2 {
      DirectoryRules(roots, rel);
    } else if !IsToken(rel) {
      assert rel == [top];
      FileRules(roots, top);
    }
  }

  lemma DirectoryRules(roots: Roots, rel: Path)
    requires |rel| >= 2
    ensures ByRules(MoveRules(roots), rel) ==
              if rel[0] == "learning" then Some(roots.eval + rel[1..])
              else if rel[0] == "artifacts" || rel[0] == "services" || rel[0] == "obsidian" then Some(roots.state + rel)
              else if rel[0] == "scheduled" then Some(roots.log + rel)
              else None
  {
    hide ByRules, MoveRules, Matches, Target;
    DirectoriesFirst(roots);
    FirstOfFive(MoveRules(roots), rel);
    Rejoined(roots.state, rel);
    Rejoined(roots.log, rel);
  }

  lemma DirectoriesFirst(roots: Roots)
    ensures var rules := MoveRules(roots);
            && |rules| == 12
            && rules[0] == Dir("learning", roots.eval) && rules[1] == Dir("artifacts", roots.state + ["artifacts"])
            && rules[2] == Dir("services", roots.state + ["services"]) && rules[3] == Dir("obsidian", roots.state + ["obsidian"])
            && rules[4] == Dir("scheduled", roots.log + ["scheduled"])
            && forall i :: 5 <= i < |rules| ==> rules[i].File?
  {
  }

  lemma FirstOfFive(rules: seq<Rule>, rel: Path)
    requires |rel| >= 2 && |rules| >= 5 && (forall i :: 0 <= i < 5 ==> rules[i].Dir?)
    requires forall i :: 5 <= i < |rules| ==> rules[i].File?
    ensures ByRules(rules, rel) ==
              if rel[0] == rules[0].name then Some(rules[0].target + rel[1..])
              else if rel[0] == rules[1].name then Some(rules[1].target + rel[1..])
              else if rel[0] == rules[2].name then Some(rules[2].target + rel[1..])
              else if rel[0] == rules[3].name then Some(rules[3].target + rel[1..])
              else if rel[0] == rules[4].name then Some(rules[4].target + rel[1..])
              else None
  {
    hide ByRules;
    FilesDoNotMatch(rules[5..], rel);
    assert rules[1..][1..] == rules[2..] && rules[2..][1..] == rules[3..] && rules[3..][1..] == rules[4..]
           && rules[4..][1..] == rules[5..];
    DirectoryRule(rules, rel);
    DirectoryRule(rules[1..], rel);
    DirectoryRule(rules[2..], rel);
    DirectoryRule(rules[3..], rel);
    DirectoryRule(rules[4..], rel);
  }

  lemma DirectoryRule(rules: seq<Rule>, rel: Path)
    requires rules != [] && rules[0].Dir? && |rel| >= 2
    ensures ByRules(rules, rel) ==
              if rel[0] == rules[0].name then Some(rules[0].target + rel[1..]) else ByRules(rules[1..], rel)
  {
  }

  lemma Rejoined(t: Path, rel: Path)
    requires rel != []
    ensures (t + [rel[0]]) + rel[1..] == t + rel
  {
    assert rel == [rel[0]] + rel[1..];
  }

  lemma {:induction false} FilesDoNotMatch(rules: seq<Rule>, rel: Path)
    requires |rel| >= 2 && forall r :: r in rules ==> r.File?
    ensures ByRules(rules, rel) == None
  {
    if rules != [] {
      assert rules[0] in rules;
      FilesDoNotMatch(rules[1..], rel);
    }
  }

  lemma FileRules(roots: Roots, top: string)
    ensures ByRules(MoveRules(roots), [top]) ==
              if top in {"control_plane.db", "runs.sqlite", "langgraph_checkpoints.sqlite", "repeated_error_memory.json"}
              then Some(roots.state + [top])
              else if top in {"audit.jsonl", "ollama-auto.log", "ollama-auto.pid"} then Some(roots.log + [top])
              else None
  {
    var rules := MoveRules(roots);
    DirectoriesDoNotMatch(rules, [top], 5);
    var files := rules[5..];
    assert files[1..] == rules[6..] && files[1..][1..] == rules[7..] && rules[7..][1..] == rules[8..]
           && rules[8..][1..] == rules[9..] && rules[9..][1..] == rules[10..] && rules[10..][1..] == rules[11..]
           && rules[11..][1..] == [];
    ByRulesOf(rules[11..], [top]);
    ByRulesOf(rules[10..], [top]);
    ByRulesOf(rules[9..], [top]);
    ByRulesOf(rules[8..], [top]);
    ByRulesOf(rules[7..], [top]);
    ByRulesOf(rules[6..], [top]);
    ByRulesOf(rules[5..], [top]);
  }

  lemma ByRulesOf(rules: seq<Rule>, rel: Path)
    requires rules != []
    ensures ByRules(rules, rel) == if Matches(rules[0], rel) then Some(Target(rules[0], rel)) else ByRules(rules[1..], rel)
  {
  }

  lemma {:induction false} DirectoriesDoNotMatch(rules: seq<Rule>, rel: Path, n: nat)
    requires |rel| == 1 && n <= |rules| && forall i :: 0 <= i < n ==> rules[i].Dir?
    ensures ByRules(rules, rel) == ByRules(rules[n..], rel)
  {
    if n > 0 {
      DirectoriesDoNotMatch(rules[1..], rel, n - 1);
      assert rules[1..][n - 1..] == rules[n..];
    }
  }

  // ----- no two files go to the same place

  ghost predicate Injective(rules: seq<Rule>, tokens: Path) {
    forall a, b :: Resolve(rules, tokens, a).Some? && Resolve(rules, tokens, a) == Resolve(rules, tokens, b) ==> a == b
  }

  /** The targets of two rules share a path. */
  predicate Clash(r: Rule, s: Rule) {
    match (r, s)
    case (Dir(_, t), Dir(_, u)) => t <= u || u <= t
    case (Dir(_, t), File(_, u)) => t < u
    case (File(_, t), Dir(_, u)) => u < t
    case (File(_, t), File(_, u)) => t == u
  }

  /** A rule's target and the token directory share a path. */
  predicate TokenClash(r: Rule, tokens: Path) {
    match r
    case Dir(_, t) => t <= tokens
    case File(_, t) => |t| == |tokens| + 1 && tokens < t && EndsWith(t[|t| - 1], TOKEN_SUFFIX)
  }

  ghost predicate Clear(rules: seq<Rule>, tokens: Path) {
    && (forall i, j :: 0 <= i < j < |rules| ==> !Clash(rules[i], rules[j]))
    && (forall i :: 0 <= i < |rules| ==> !TokenClash(rules[i], tokens))
  }

  /** Rules have names of their own, and none names a token file. */
  ghost predicate WellNamed(rules: seq<Rule>) {
    && (forall i, j :: 0 <= i < j < |rules| ==> rules[i].name != rules[j].name)
    && (forall i :: 0 <= i < |rules| && rules[i].File? ==> !EndsWith(rules[i].name, TOKEN_SUFFIX))
  }

  lemma {:induction false} MatchedRule(rules: seq<Rule>, rel: Path) returns (i: nat)
    requires ByRules(rules, rel).Some?
    ensures i < |rules| && Matches(rules[i], rel) && ByRules(rules, rel) == Some(Target(rules[i], rel))
  {
    if Matches(rules[0], rel) {
      i := 0;
    } else {
      var j := MatchedRule(rules[1..], rel);
      i := j + 1;
    }
  }

  lemma {:induction false} OnlyRule(rules: seq<Rule>, rel: Path, i: nat)
    requires WellNamed(rules) && i < |rules| && Matches(rules[i], rel)
    ensures ByRules(rules, rel) == Some(Target(rules[i], rel))
  {
    if i > 0 {
      assert rules[0].name != rules[i].name;
      assert forall j, k :: 0 <= j < k < |rules[1..]| ==> rules[1..][j].name != rules[1..][k].name by {
        forall j, k | 0 <= j < k < |rules[1..]| ensures rules[1..][j].name != rules[1..][k].name {
          assert rules[j + 1].name != rules[k + 1].name;
        }
      }
      OnlyRule(rules[1..], rel, i - 1);
    }
  }

  lemma SameTarget(r: Rule, s: Rule, a: Path, b: Path)
    requires Matches(r, a) && Matches(s, b) && Target(r, a) == Target(s, b)
    ensures Clash(r, s) && Clash(s, r)
  {
    if r.Dir? && s.Dir? {
      Prefixes(r.target, a[1..], s.target, b[1..]);
    }
  }

  lemma Prefixes(t: Path, x: Path, u: Path, y: Path)
    requires t + x == u + y
    ensures t <= u || u <= t
  {
    if |t| <= |u| {
      assert t == (t + x)[..|t|] && u[..|t|] == (u + y)[..|t|];
    } else {
      assert u == (u + y)[..|u|] && t[..|u|] == (t + x)[..|u|];
    }
  }

  lemma ClearIsInjective(rules: seq<Rule>, tokens: Path, a: Path, b: Path)
    requires Clear(rules, tokens)
    requires Resolve(rules, tokens, a).Some? && Resolve(rules, tokens, a) == Resolve(rules, tokens, b)
    ensures a == b
  {
    var to := Resolve(rules, tokens, a).value;
    if IsToken(a) && IsToken(b) {
      assert a == to[|tokens|..] && b == to[|tokens|..];
    } else if IsToken(a) {
      var j := MatchedRule(rules, b);
      TokenTarget(rules[j], tokens, a, b);
    } else if IsToken(b) {
      var i := MatchedRule(rules, a);
      TokenTarget(rules[i], tokens, b, a);
    } else {
      var i := MatchedRule(rules, a);
      var j := MatchedRule(rules, b);
      SameTarget(rules[i], rules[j], a, b);
      assert i == j;
      if rules[i].Dir? {
        assert a[1..] == to[|rules[i].target|..] && b[1..] == to[|rules[i].target|..];
        assert a == [a[0]] + a[1..] && b == [b[0]] + b[1..];
      }
    }
  }

  lemma TokenTarget(r: Rule, tokens: Path, a: Path, b: Path)
    requires IsToken(a) && Matches(r, b) && Target(r, b) == tokens + a
    ensures TokenClash(r, tokens)
  {
    if r.Dir? {
      assert |r.target| <= |tokens|;
      assert r.target == (r.target + b[1..])[..|r.target|] && tokens[..|r.target|] == (tokens + a)[..|r.target|];
    } else {
      assert tokens == (tokens + a)[..|tokens|] && r.target[|tokens|] == a[0];
    }
  }

  /** Two clashing rules send two different files to one place. */
  lemma ClashCollides(rules: seq<Rule>, tokens: Path, i: nat, j: nat) returns (a: Path, b: Path)
    requires WellNamed(rules) && i < |rules| && j < |rules| && i != j && Clash(rules[i], rules[j])
    requires rules[i].Dir? || rules[j].File?
    requires rules[i].Dir? && rules[j].Dir? ==> rules[i].target <= rules[j].target
    ensures a != b && Resolve(rules, tokens, a).Some? && Resolve(rules, tokens, a) == Resolve(rules, tokens, b)
  {
    var r, s := rules[i], rules[j];
    assert r.name != s.name;
    if r.Dir? && s.Dir? {
      a, b := [r.name] + s.target[|r.target|..] + ["x"], [s.name, "x"];
      assert a[1..] == s.target[|r.target|..] + ["x"] && b[1..] == ["x"];
      assert r.target + (s.target[|r.target|..] + ["x"]) == s.target + ["x"];
    } else if r.Dir? {
      a, b := [r.name] + s.target[|r.target|..], [s.name];
      assert a[1..] == s.target[|r.target|..];
      assert r.target + s.target[|r.target|..] == s.target;
    } else {
      a, b := [r.name], [s.name];
    }
    assert a[0] == r.name && b[0] == s.name;
    OnlyRule(rules, a, i);
    OnlyRule(rules, b, j);
  }

  lemma TokenClashCollides(rules: seq<Rule>, tokens: Path, i: nat) returns (a: Path, b: Path)
    requires WellNamed(rules) && i < |rules| && TokenClash(rules[i], tokens)
    ensures a != b && Resolve(rules, tokens, a).Some? && Resolve(rules, tokens, a) == Resolve(rules, tokens, b)
  {
    var r := rules[i];
    if r.Dir? {
      a, b := [r.name] + tokens[|r.target|..] + [TOKEN_SUFFIX], [TOKEN_SUFFIX];
      assert a[1..] == tokens[|r.target|..] + [TOKEN_SUFFIX];
      assert r.target + (tokens[|r.target|..] + [TOKEN_SUFFIX]) == tokens + [TOKEN_SUFFIX];
      assert TOKEN_SUFFIX[|TOKEN_SUFFIX| - |TOKEN_SUFFIX|..] == TOKEN_SUFFIX;
      assert |a| >= 2 && a[0] == r.name;
    } else {
      a, b := [r.name], [r.target[|r.target| - 1]];
      assert tokens + b == r.target;
    }
    OnlyRule(rules, a, i);
  }

  /** The destinations are distinct for all files exactly when no two targets of the table share
      a path: a condition on the four roots alone. */
  lemma InjectiveIffClear(rules: seq<Rule>, tokens: Path)
    requires WellNamed(rules)
    ensures Injective(rules, tokens) <==> Clear(rules, tokens)
  {
    hide Resolve, Clash, TokenClash, WellNamed;
    if Clear(rules, tokens) {
      forall a, b | Resolve(rules, tokens, a).Some? && Resolve(rules, tokens, a) == Resolve(rules, tokens, b)
        ensures a == b
      {
        ClearIsInjective(rules, tokens, a, b);
      }
    } else if exists i :: 0 <= i < |rules| && TokenClash(rules[i], tokens) {
      var i :| 0 <= i < |rules| && TokenClash(rules[i], tokens);
      var a, b := TokenClashCollides(rules, tokens, i);
    } else {
      var i, j :| 0 <= i < j < |rules| && Clash(rules[i], rules[j]);
      ClashIsSymmetric(rules[i], rules[j]);
      var swap := Swapped(rules[i], rules[j]);
      var a, b := ClashCollides(rules, tokens, if swap then j else i, if swap then i else j);
    }
  }

  /** Whether the second of two clashing rules has the shorter target. */
  predicate Swapped(r: Rule, s: Rule) {
    (r.File? && s.Dir?) || (r.Dir? && s.Dir? && !(r.target <= s.target))
  }

  lemma ClashIsSymmetric(r: Rule, s: Rule)
    ensures Clash(r, s) <==> Clash(s, r)
    ensures Clash(r, s) && Swapped(r, s) ==> s.Dir? && (r.Dir? ==> s.target <= r.target)
    ensures Clash(r, s) && !Swapped(r, s) ==> (r.Dir? || s.File?) && (r.Dir? && s.Dir? ==> r.target <= s.target)
  {
  }

  /** The table itself is well named, so its destinations are distinct exactly when its targets are clear. */
  lemma TableIsWellNamed(roots: Roots)
    ensures WellNamed(MoveRules(roots))
    ensures Injective(MoveRules(roots), roots.tokens) <==> Clear(MoveRules(roots), roots.tokens)
  {
    var rules := MoveRules(roots);
    assert WellNamed(rules) by {
      forall i, j | 0 <= i < j < |rules| ensures rules[i].name != rules[j].name {
        NamesDiffer(roots, i, j);
      }
      forall i | 0 <= i < |rules| && rules[i].File? ensures !EndsWith(rules[i].name, TOKEN_SUFFIX) {
        NotATokenFile(roots, i);
      }
    }
    InjectiveIffClear(rules, roots.tokens);
  }

  /** Every two names of the table differ in length, first letter, or last letter. */
  lemma NamesDiffer(roots: Roots, i: nat, j: nat)
    requires i < j < 12
    ensures MoveRules(roots)[i].name != MoveRules(roots)[j].name
  {
    var a, b := MoveRules(roots)[i].name, MoveRules(roots)[j].name;
    assert |a| != |b| || a[0] != b[0] || a[|a| - 1] != b[|b| - 1];
  }

  lemma NotATokenFile(roots: Roots, i: nat)
    requires i < 12 && MoveRules(roots)[i].File?
    ensures !EndsWith(MoveRules(roots)[i].name, TOKEN_SUFFIX)
  {
    var name := MoveRules(roots)[i].name;
    assert name[|name| - 1] != 'n' || name[|name| - 6] != 'n';
    assert TOKEN_SUFFIX[10] == 'n' && TOKEN_SUFFIX[5] == 'n';
  }

  /** Neither path lies in the other. */
  predicate Apart(a: Path, b: Path) { !(a <= b) && !(b <= a) }

  function RootOf(r: Roots, i: nat): Path
    requires i < 12
  {
    if i == 0 then r.eval else if i == 4 || i >= 9 then r.log else r.state
  }

  lemma TargetParts(r: Roots, i: nat)
    requires i < 12
    ensures MoveRules(r)[i].target == RootOf(r, i) + if i == 0 then [] else [MoveRules(r)[i].name]
  {
    assert r.eval + [] == r.eval;
  }

  lemma ApartGrows(a: Path, b: Path, x: Path, y: Path)
    requires Apart(a, b)
    ensures Apart(a + x, b + y)
  {
    if a + x <= b + y {
      Prefixes(a, (x + (b + y)[|a + x|..]), b, y);
    }
    if b + y <= a + x {
      Prefixes(b, (y + (a + x)[|b + y|..]), a, x);
    }
  }

  /** Roots that do not lie in each other make the table clear. */
  lemma ApartRootsAreClear(r: Roots)
    requires Apart(r.state, r.log) && Apart(r.state, r.tokens) && Apart(r.state, r.eval)
    requires Apart(r.log, r.tokens) && Apart(r.log, r.eval) && Apart(r.tokens, r.eval)
    ensures Clear(MoveRules(r), r.tokens) && Injective(MoveRules(r), r.tokens)
  {
    hide Resolve;
    var rules := MoveRules(r);
    forall i, j | 0 <= i < j < 12 ensures !Clash(rules[i], rules[j]) {
      TargetParts(r, i);
      TargetParts(r, j);
      if RootOf(r, i) == RootOf(r, j) {
        NamesDiffer(r, i, j);
        var t, u := rules[i].target, rules[j].target;
        assert t[|t| - 1] == rules[i].name && u[|u| - 1] == rules[j].name;
      } else {
        ApartGrows(RootOf(r, i), RootOf(r, j), if i == 0 then [] else [rules[i].name], [rules[j].name]);
      }
    }
    forall i | 0 <= i < 12 ensures !TokenClash(rules[i], r.tokens) {
      TargetParts(r, i);
      ApartGrows(RootOf(r, i), r.tokens, if i == 0 then [] else [rules[i].name], []);
      assert r.tokens + [] == r.tokens;
    }
    TableIsWellNamed(r);
  }

  // ----- the plan

  type Files = map<Path, string>

  datatype Action = Action(source: Path, destination: Path, sha: string, size: nat)

  datatype Status = Pending | Moved | SkippedAlready | KeptAsBackup | Error

  datatype Plan = Plan(actions: seq<Action>, skipped: seq<Path>)

  predicate Collected(rel: Path) { rel != [] && rel[|rel| - 1] !in SKIP_FILES }

  /** The plan for the files listed under `logs`, by their relative paths. */
  function PlanFor(roots: Roots, logs: Path, listing: seq<Path>, files: Files, hash: string -> string): Plan
    requires forall rel :: rel in listing ==> logs + rel in files
  {
    if listing == [] then Plan([], [])
    else
      var rel := listing[|listing| - 1];
      var p := PlanFor(roots, logs, listing[..|listing| - 1], files, hash);
      if !Collected(rel) then p
      else
        match ResolveDestination(roots, rel)
        case None => p.(skipped := p.skipped + [logs + rel])
        case Some(dest) =>
          var bytes := files[logs + rel];
          p.(actions := p.actions + [Action(logs + rel, dest, hash(bytes), |bytes|)])
  }

  /** What one action does to the files when it is not a dry run. */
  function Act(files: Files, a: Action, hash: string -> string): Files
    requires a.source in files
  {
    if a.destination in files then
      if hash(files[a.destination]) == a.sha then files - {a.source} else files
    else (files - {a.source})[a.destination := files[a.source]]
  }

  function StatusOf(files: Files, a: Action, hash: string -> string, dryRun: bool): Status
    requires a.source in files
  {
    if a.destination in files then
      if hash(files[a.destination]) == a.sha then SkippedAlready else KeptAsBackup
    else if dryRun then Pending
    else if hash(files[a.source]) == a.sha then Moved else Error
  }

  /** Sources exist and nothing is moved twice. */
  ghost predicate Present(files: Files, actions: seq<Action>) {
    && (forall i :: 0 <= i < |actions| ==> actions[i].source in files)
    && (forall i, j :: 0 <= i < j < |actions| ==> actions[i].source != actions[j].source)
  }

  /** ... two things never go to one place, and no destination is a source. */
  ghost predicate Orderly(files: Files, actions: seq<Action>) {
    && Present(files, actions)
    && (forall i, j :: 0 <= i < j < |actions| ==> actions[i].destination != actions[j].destination)
    && (forall i, j :: 0 <= i < |actions| && 0 <= j < |actions| ==> actions[i].source != actions[j].destination)
  }

  /** ... and the sources are unchanged since the plan was made. */
  ghost predicate Sane(files: Files, actions: seq<Action>, hash: string -> string) {
    Orderly(files, actions)
    && forall i :: 0 <= i < |actions| ==> actions[i].sha == hash(files[actions[i].source])
  }

  /** The files after the first `n` actions; an action whose source is gone does nothing. */
  function After(files: Files, actions: seq<Action>, n: nat, hash: string -> string): Files
    requires n <= |actions|
  {
    if n == 0 then files
    else
      var before := After(files, actions, n - 1, hash);
      if actions[n - 1].source in before then Act(before, actions[n - 1], hash) else before
  }

  lemma {:induction false} Stays(files: Files, actions: seq<Action>, m: nat, n: nat, hash: string -> string, p: Path)
    requires m <= n <= |actions| && p in After(files, actions, m, hash)
    requires forall i :: m <= i < n ==> actions[i].source != p
    ensures p in After(files, actions, n, hash)
    ensures After(files, actions, n, hash)[p] == After(files, actions, m, hash)[p]
  {
    if m < n {
      Stays(files, actions, m, n - 1, hash, p);
    }
  }

  lemma {:induction false} StaysAway(files: Files, actions: seq<Action>, m: nat, n: nat, hash: string -> string, p: Path)
    requires m <= n <= |actions| && p !in After(files, actions, m, hash)
    requires forall i :: m <= i < n ==> actions[i].destination != p
    ensures p !in After(files, actions, n, hash)
  {
    if m < n {
      StaysAway(files, actions, m, n - 1, hash, p);
    }
  }

  /** When its turn comes, an action finds its source and its destination as they were at the start. */
  lemma AtItsTurn(files: Files, actions: seq<Action>, k: nat, hash: string -> string)
    requires Orderly(files, actions) && k < |actions|
    ensures var now, a := After(files, actions, k, hash), actions[k];
            && a.source in now && now[a.source] == files[a.source]
            && (a.destination in now <==> a.destination in files)
            && (a.destination in files ==> now[a.destination] == files[a.destination])
  {
    hide After;
    AtStart(files, actions, hash);
    var a := actions[k];
    Stays(files, actions, 0, k, hash, a.source);
    if a.destination in files {
      Stays(files, actions, 0, k, hash, a.destination);
    } else {
      StaysAway(files, actions, 0, k, hash, a.destination);
    }
  }

  lemma AtStart(files: Files, actions: seq<Action>, hash: string -> string)
    ensures After(files, actions, 0, hash) == files
  {
  }

  lemma OneAction(files: Files, actions: seq<Action>, k: nat, hash: string -> string)
    requires k < |actions| && actions[k].source in After(files, actions, k, hash)
    ensures After(files, actions, k + 1, hash) == Act(After(files, actions, k, hash), actions[k], hash)
  {
  }

  /** An action finds its source as it was at the start, wherever the others go. */
  lemma SourceAtItsTurn(files: Files, actions: seq<Action>, k: nat, hash: string -> string)
    requires Present(files, actions) && k < |actions|
    ensures var now := After(files, actions, k, hash);
            actions[k].source in now && now[actions[k].source] == files[actions[k].source]
  {
    hide After;
    AtStart(files, actions, hash);
    Stays(files, actions, 0, k, hash, actions[k].source);
  }

  /** Action `i` ends with this status, judged by the files it finds. */
  ghost predicate StatusAt(files: Files, actions: seq<Action>, i: nat, hash: string -> string, dryRun: bool, status: Status)
    requires i < |actions|
  {
    var now := if dryRun then files else After(files, actions, i, hash);
    actions[i].source in now && status == StatusOf(now, actions[i], hash, dryRun)
  }

  ghost predicate StatusesAlong(files: Files, actions: seq<Action>, hash: string -> string, dryRun: bool,
                                statuses: seq<Status>)
  {
    |statuses| == |actions| && forall i :: 0 <= i < |actions| ==> StatusAt(files, actions, i, hash, dryRun, statuses[i])
  }

  /** For an orderly plan the files as they were before the run tell all statuses. */
  lemma OrderlyStatuses(files: Files, actions: seq<Action>, hash: string -> string, dryRun: bool, statuses: seq<Status>)
    requires Orderly(files, actions) && StatusesAlong(files, actions, hash, dryRun, statuses)
    ensures statuses == Statuses(files, actions, hash, dryRun)
  {
    hide After;
    forall i | 0 <= i < |actions| ensures statuses[i] == StatusOf(files, actions[i], hash, dryRun) {
      assert StatusAt(files, actions, i, hash, dryRun, statuses[i]);
      AtItsTurn(files, actions, i, hash);
    }
  }

  datatype Counts = Counts(moved: nat, skippedAlreadyDone: nat, keptAsBackup: nat, errors: nat)

  function Count(c: Counts, s: Status): Counts {
    match s
    case Pending => c
    case Moved => c.(moved := c.moved + 1)
    case SkippedAlready => c.(skippedAlreadyDone := c.skippedAlreadyDone + 1)
    case KeptAsBackup => c.(keptAsBackup := c.keptAsBackup + 1)
    case Error => c.(errors := c.errors + 1)
  }

  function Tally(ss: seq<Status>): Counts {
    if ss == [] then Counts(0, 0, 0, 0) else Count(Tally(ss[..|ss| - 1]), ss[|ss| - 1])
  }

  /** The statuses an orderly plan ends with, told from the files as they were before it. */
  function Statuses(files: Files, actions: seq<Action>, hash: string -> string, dryRun: bool): (ss: seq<Status>)
    requires forall i :: 0 <= i < |actions| ==> actions[i].source in files
    ensures |ss| == |actions|
  {
    seq(|actions|, i requires 0 <= i < |actions| => StatusOf(files, actions[i], hash, dryRun))
  }

  class Migration {
    var files: Files

    constructor (files: Files)
      ensures this.files == files
    {
      this.files := files;
    }

    method BuildPlan(roots: Roots, logs: Path, listing: seq<Path>, hash: string -> string) returns (plan: Plan)
      requires forall rel :: rel in listing ==> logs + rel in files
      ensures plan == PlanFor(roots, logs, listing, files, hash)
    {
      hide ResolveDestination;
      plan := Plan([], []);
      for i := 0 to |listing|
        invariant plan == PlanFor(roots, logs, listing[..i], files, hash)
      {
        var rel := listing[i];
        assert listing[..i + 1][..i] == listing[..i];
        if !Collected(rel) {
          continue;
        }
        var dest := ResolveDestination(roots, rel);
        if dest.None? {
          plan := plan.(skipped := plan.skipped + [logs + rel]);
          continue;
        }
        var bytes := files[logs + rel];
        plan := plan.(actions := plan.actions + [Action(logs + rel, dest.value, hash(bytes), |bytes|)]);
      }
      assert listing[..|listing|] == listing;
    }

    method Execute(actions: seq<Action>, hash: string -> string, dryRun: bool)
        returns (statuses: seq<Status>, counts: Counts)
      requires Present(files, actions)
      modifies this
      ensures files == if dryRun then old(files) else After(old(files), actions, |actions|, hash)
      ensures StatusesAlong(old(files), actions, hash, dryRun, statuses)
      ensures counts == Tally(statuses)
    {
      hide After;
      statuses, counts := [], Counts(0, 0, 0, 0);
      AtStart(files, actions, hash);
      for i := 0 to |actions|
        invariant files == if dryRun then old(files) else After(old(files), actions, i, hash)
        invariant |statuses| == i
        invariant forall j :: 0 <= j < i ==> StatusAt(old(files), actions, j, hash, dryRun, statuses[j])
        invariant counts == Tally(statuses)
      {
        SourceAtItsTurn(old(files), actions, i, hash);
        OneAction(old(files), actions, i, hash);
        var status := ExecuteOne(actions[i], hash, dryRun);
        TallyOneMore(statuses, status);
        statuses := statuses + [status];
        counts := Count(counts, status);
      }
    }

    /** The body of the loop over the actions. */
    method ExecuteOne(a: Action, hash: string -> string, dryRun: bool) returns (status: Status)
      requires a.source in files
      modifies this
      ensures status == StatusOf(old(files), a, hash, dryRun)
      ensures files == if dryRun then old(files) else Act(old(files), a, hash)
    {
      if a.destination in files {
        if hash(files[a.destination]) == a.sha {
          if !dryRun {
            files := files - {a.source};
          }
          return SkippedAlready;
        }
        return KeptAsBackup;
      }
      if dryRun {
        return Pending;
      }
      files := (files - {a.source})[a.destination := files[a.source]];
      if hash(files[a.destination]) != a.sha {
        return Error;
      }
      return Moved;
    }
  }

  lemma TallyOneMore(ss: seq<Status>, s: Status)
    ensures Tally(ss + [s]) == Count(Tally(ss), s)
  {
    assert (ss + [s])[..|ss|] == ss;
  }

  // ----- what executing a plan guarantees

  /** A run, planned afresh, takes exactly the listed files that have a destination and are not among the
      files to skip: each of them ends at its destination, unless that holds other bytes, and every other
      file of the tree stays where it is. */
  lemma WhatMoves(roots: Roots, logs: Path, listing: seq<Path>, files: Files, hash: string -> string, rel: Path)
    requires forall r :: r in listing <==> logs + r in files
    requires NoRepeats(listing) && Outside(roots, logs) && Injective(MoveRules(roots), roots.tokens) && InjectiveHash(hash)
    requires rel in listing && rel != []
    ensures var done := Done(files, PlanFor(roots, logs, listing, files, hash).actions, hash);
            var to := ResolveDestination(roots, rel);
            if to.Some? && rel[|rel| - 1] != ".gitkeep" && rel[|rel| - 1] != ".DS_Store" then
              && to.value in done
              && (to.value !in files || files[to.value] == files[logs + rel] ==>
                    done[to.value] == files[logs + rel] && logs + rel !in done)
              && (to.value in files && files[to.value] != files[logs + rel] ==>
                    done[to.value] == files[to.value] && logs + rel in done && done[logs + rel] == files[logs + rel])
            else logs + rel in done && done[logs + rel] == files[logs + rel]
  {
    hide ResolveDestination, PlanFor, Resolve, After, MoveRules;
    var actions := PlanFor(roots, logs, listing, files, hash).actions;
    BuiltPlanIsSane(roots, logs, listing, files, hash);
    if ResolveDestination(roots, rel).Some? && Collected(rel) {
      var k := PlannedAction(roots, logs, listing, files, hash, rel);
      NothingIsLost(files, actions, k, hash);
    } else {
      forall k | 0 <= k < |actions| ensures actions[k].source != logs + rel {
        var i := ActionOrigin(roots, logs, listing, files, hash, k);
        assert (logs + rel)[|logs|..] == rel && (logs + listing[i])[|logs|..] == listing[i];
      }
      NothingElseChanges(files, actions, hash, logs + rel);
    }
  }

  /** What the status of an action says about its file: moved and skipped files are only at their
      destination, a backup is at both places with different bytes, and nothing is left pending. */
  lemma StatusTells(files: Files, actions: seq<Action>, k: nat, hash: string -> string)
    requires Sane(files, actions, hash) && InjectiveHash(hash) && k < |actions|
    ensures var a, done, status := actions[k], Done(files, actions, hash), Statuses(files, actions, hash, false)[k];
            var bytes := files[a.source];
            && (status == Moved <==> a.destination !in files)
            && (status == SkippedAlready <==> a.destination in files && files[a.destination] == bytes)
            && (status == KeptAsBackup <==> a.destination in files && files[a.destination] != bytes)
            && a.destination in done
            && (status == Moved || status == SkippedAlready ==> a.source !in done && done[a.destination] == bytes)
            && (status == KeptAsBackup ==> a.source in done && done[a.source] == bytes && done[a.destination] != bytes)
  {
    hide After;
    NothingIsLost(files, actions, k, hash);
  }

  /** A run reports no error exactly when every file it moves is as it was when the plan was made. */
  lemma {:induction false} NoErrorIffUnchanged(files: Files, actions: seq<Action>, hash: string -> string)
    requires forall i :: 0 <= i < |actions| ==> actions[i].source in files
    ensures Tally(Statuses(files, actions, hash, false)).errors == 0
            <==> forall i :: 0 <= i < |actions| && actions[i].destination !in files ==>
                   hash(files[actions[i].source]) == actions[i].sha
  {
    if actions != [] {
      var n := |actions| - 1;
      NoErrorIffUnchanged(files, actions[..n], hash);
      assert Statuses(files, actions, hash, false)[..n] == Statuses(files, actions[..n], hash, false);
      assert forall i :: 0 <= i < n ==> actions[..n][i] == actions[i];
    }
  }

  ghost predicate InjectiveHash(hash: string -> string) {
    forall x, y :: hash(x) == hash(y) ==> x == y
  }

  function Done(files: Files, actions: seq<Action>, hash: string -> string): Files {
    After(files, actions, |actions|, hash)
  }

  /** Every planned file's bytes are at its source or at its destination afterwards: moved if the
      destination was free, only there if it already held the same bytes, and otherwise kept. */
  lemma NothingIsLost(files: Files, actions: seq<Action>, k: nat, hash: string -> string)
    requires Sane(files, actions, hash) && InjectiveHash(hash) && k < |actions|
    ensures var a, done := actions[k], Done(files, actions, hash);
            var bytes := files[a.source];
            && a.destination in done
            && (a.source in done <==> a.destination in files && files[a.destination] != bytes)
            && (a.source in done ==> done[a.source] == bytes)
            && done[a.destination] == (if a.destination in files then files[a.destination] else bytes)
  {
    hide After;
    var a := actions[k];
    AtItsTurn(files, actions, k, hash);
    OneAction(files, actions, k, hash);
    var next := After(files, actions, k + 1, hash);
    assert a.destination in next;
    Stays(files, actions, k + 1, |actions|, hash, a.destination);
    if a.source in next {
      Stays(files, actions, k + 1, |actions|, hash, a.source);
    } else {
      StaysAway(files, actions, k + 1, |actions|, hash, a.source);
    }
  }

  /** A file that is not a planned source keeps its bytes, in particular one that sits at a destination. */
  lemma NothingElseChanges(files: Files, actions: seq<Action>, hash: string -> string, p: Path)
    requires p in files && forall i :: 0 <= i < |actions| ==> actions[i].source != p
    ensures p in Done(files, actions, hash) && Done(files, actions, hash)[p] == files[p]
  {
    AtStart(files, actions, hash);
    Stays(files, actions, 0, |actions|, hash, p);
  }

  /** No destination lies in the tree that is being moved. */
  ghost predicate Outside(roots: Roots, logs: Path) {
    forall rel :: ResolveDestination(roots, rel).Some? ==> !(logs <= ResolveDestination(roots, rel).value)
  }

  ghost predicate NoRepeats(listing: seq<Path>) {
    forall i, j :: 0 <= i < j < |listing| ==> listing[i] != listing[j]
  }

  /** The relative path behind an action. */
  lemma {:induction false} ActionOrigin(roots: Roots, logs: Path, listing: seq<Path>, files: Files,
                                        hash: string -> string, k: nat) returns (i: nat)
    requires forall rel :: rel in listing ==> logs + rel in files
    requires k < |PlanFor(roots, logs, listing, files, hash).actions|
    ensures i < |listing| && Collected(listing[i]) && listing[i] in listing
    ensures var bytes := files[logs + listing[i]];
            var dest := ResolveDestination(roots, listing[i]);
            dest.Some? && PlanFor(roots, logs, listing, files, hash).actions[k]
                          == Action(logs + listing[i], dest.value, hash(bytes), |bytes|)
  {
    hide ResolveDestination;
    var n := |listing| - 1;
    var p' := PlanFor(roots, logs, listing[..n], files, hash);
    if k < |p'.actions| {
      i := ActionOrigin(roots, logs, listing[..n], files, hash, k);
      assert listing[..n][i] == listing[i];
    } else {
      i := n;
    }
  }

  /** A freshly built plan over clear roots can be executed safely. */
  lemma {:induction false} BuiltPlanIsSane(roots: Roots, logs: Path, listing: seq<Path>, files: Files,
                                           hash: string -> string)
    requires forall rel :: rel in listing ==> logs + rel in files
    requires NoRepeats(listing) && Outside(roots, logs) && Injective(MoveRules(roots), roots.tokens)
    ensures Sane(files, PlanFor(roots, logs, listing, files, hash).actions, hash)
  {
    hide ResolveDestination, PlanFor, Resolve;
    var actions := PlanFor(roots, logs, listing, files, hash).actions;
    forall k | 0 <= k < |actions|
      ensures actions[k].source in files && actions[k].sha == hash(files[actions[k].source])
    {
      var i := ActionOrigin(roots, logs, listing, files, hash, k);
    }
    forall j, k | 0 <= j < |actions| && 0 <= k < |actions| ensures actions[j].source != actions[k].destination {
      var i := ActionOrigin(roots, logs, listing, files, hash, j);
      var m := ActionOrigin(roots, logs, listing, files, hash, k);
      assert logs <= logs + listing[i];
    }
    forall j, k | 0 <= j < k < |actions|
      ensures actions[j].source != actions[k].source && actions[j].destination != actions[k].destination
    {
      DistinctActions(roots, logs, listing, files, hash, j, k);
    }
  }

  lemma {:induction false} DistinctActions(roots: Roots, logs: Path, listing: seq<Path>, files: Files,
                                           hash: string -> string, j: nat, k: nat)
    requires forall rel :: rel in listing ==> logs + rel in files
    requires NoRepeats(listing) && Injective(MoveRules(roots), roots.tokens)
    requires j < k < |PlanFor(roots, logs, listing, files, hash).actions|
    ensures var actions := PlanFor(roots, logs, listing, files, hash).actions;
            actions[j].source != actions[k].source && actions[j].destination != actions[k].destination
  {
    hide Resolve, MoveRules;
    var n := |listing| - 1;
    var p' := PlanFor(roots, logs, listing[..n], files, hash);
    if k < |p'.actions| {
      DistinctActions(roots, logs, listing[..n], files, hash, j, k);
    } else {
      var i := ActionOrigin(roots, logs, listing[..n], files, hash, j);
      var a, b := listing[i], listing[n];
      assert a == listing[..n][i] && a != b;
      assert (logs + a)[|logs|..] == a && (logs + b)[|logs|..] == b;
    }
  }

  /** A second migration finds nothing to do: every file it plans is a backup it keeps again. */
  lemma SecondRunMovesNothing(roots: Roots, logs: Path, listing: seq<Path>, listing': seq<Path>, files: Files,
                              hash: string -> string)
    requires forall rel :: rel in listing <==> logs + rel in files
    requires NoRepeats(listing) && NoRepeats(listing') && InjectiveHash(hash)
    requires Outside(roots, logs) && Injective(MoveRules(roots), roots.tokens)
    requires var done := Done(files, PlanFor(roots, logs, listing, files, hash).actions, hash);
             forall rel :: rel in listing' ==> logs + rel in done
    ensures var done := Done(files, PlanFor(roots, logs, listing, files, hash).actions, hash);
            var again := PlanFor(roots, logs, listing', done, hash).actions;
            && Sane(done, again, hash)
            && (forall k :: 0 <= k < |again| ==> StatusOf(done, again[k], hash, false).KeptAsBackup?)
            && Done(done, again, hash) == done
  {
    hide ResolveDestination, PlanFor, Resolve, After, MoveRules;
    var actions := PlanFor(roots, logs, listing, files, hash).actions;
    var done := Done(files, actions, hash);
    var again := PlanFor(roots, logs, listing', done, hash).actions;
    BuiltPlanIsSane(roots, logs, listing, files, hash);
    BuiltPlanIsSane(roots, logs, listing', done, hash);
    forall k | 0 <= k < |again| ensures StatusOf(done, again[k], hash, false).KeptAsBackup? {
      var i := ActionOrigin(roots, logs, listing', done, hash, k);
      LeftoverIsBackup(roots, logs, listing, files, hash, listing'[i]);
    }
    KeepingChangesNothing(done, again, |again|, hash);
  }

  /** A file with a destination that is still in the old tree stands against different bytes there. */
  lemma LeftoverIsBackup(roots: Roots, logs: Path, listing: seq<Path>, files: Files, hash: string -> string, rel: Path)
    requires forall r :: r in listing <==> logs + r in files
    requires NoRepeats(listing) && Outside(roots, logs) && Injective(MoveRules(roots), roots.tokens)
    requires InjectiveHash(hash) && Collected(rel) && ResolveDestination(roots, rel).Some?
    requires logs + rel in Done(files, PlanFor(roots, logs, listing, files, hash).actions, hash)
    ensures var done := Done(files, PlanFor(roots, logs, listing, files, hash).actions, hash);
            var dest := ResolveDestination(roots, rel).value;
            dest in done && done[dest] != done[logs + rel]
  {
    hide ResolveDestination, PlanFor, Resolve, After, MoveRules;
    var actions := PlanFor(roots, logs, listing, files, hash).actions;
    BuiltPlanIsSane(roots, logs, listing, files, hash);
    if logs + rel !in files {
      forall k | 0 <= k < |actions| ensures actions[k].destination != logs + rel {
        var i := ActionOrigin(roots, logs, listing, files, hash, k);
        assert logs <= logs + rel;
      }
      AtStart(files, actions, hash);
      StaysAway(files, actions, 0, |actions|, hash, logs + rel);
      assert false;
    }
    assert rel in listing;
    var k := PlannedAction(roots, logs, listing, files, hash, rel);
    NothingIsLost(files, actions, k, hash);
  }

  lemma {:induction false} PlannedAction(roots: Roots, logs: Path, listing: seq<Path>, files: Files,
                                         hash: string -> string, rel: Path) returns (k: nat)
    requires forall r :: r in listing ==> logs + r in files
    requires rel in listing && Collected(rel) && ResolveDestination(roots, rel).Some?
    ensures var actions := PlanFor(roots, logs, listing, files, hash).actions;
            k < |actions| && actions[k].source == logs + rel
            && actions[k].destination == ResolveDestination(roots, rel).value
  {
    hide ResolveDestination;
    var n := |listing| - 1;
    var p' := PlanFor(roots, logs, listing[..n], files, hash);
    if listing[n] == rel {
      k := |p'.actions|;
    } else {
      assert listing == listing[..n] + [listing[n]];
      k := PlannedAction(roots, logs, listing[..n], files, hash, rel);
    }
  }

  lemma {:induction false} KeepingChangesNothing(files: Files, actions: seq<Action>, n: nat, hash: string -> string)
    requires n <= |actions|
    requires forall k :: 0 <= k < |actions| ==>
               actions[k].source in files && StatusOf(files, actions[k], hash, false).KeptAsBackup?
    ensures After(files, actions, n, hash) == files
  {
    if n > 0 {
      KeepingChangesNothing(files, actions, n - 1, hash);
    }
  }
}
