/**
 * Choosing a cluster (internal/selector/selector.go): the menu lines shown
 * to the picker, reading a chosen line back to its cluster, and the
 * decision between killing all sessions, a cluster, cancelling and an error.
 * The picker's runs and the environment variable are inputs.
 */
module Selector {
  import opened Wrappers
  import opened Text
  import opened Config

  const KillOption: string := "[Kill all SSM sessions]"
  /** The headless selection that asks to kill all sessions. */
  const KillAllWord: string := "kill_all"
  const ActiveGlyph: char := '●'
  const IdleGlyph: char := '○'
  const GlobeIcon: char := '\U{1F30F}'

  /** What a selection decides. */
  datatype Choice = KillAll | Picked(cluster: ClusterConfig) | Cancel

  /** " 🌏" for a direct-connect cluster, nothing otherwise. */
  function Icon(c: ClusterConfig): string {
    if c.directConnect then [' ', GlobeIcon] else ""
  }

  /** The menu line of a cluster: status glyph, space, name, icon. */
  function OptionLine(c: ClusterConfig, activeNames: set<string>): string {
    [if c.name in activeNames then ActiveGlyph else IdleGlyph] + " " + c.name + Icon(c)
  }

  // ---------------------------------------------------------------------------
  // buildOptions
  // ---------------------------------------------------------------------------

  /** `buildOptions`: the kill option, then one line per cluster, in order. */
  method BuildOptions(clusters: seq<ClusterConfig>, activeNames: set<string>) returns (opts: seq<string>)
    ensures |opts| == |clusters| + 1
    ensures opts[0] == KillOption
    ensures forall i :: 0 <= i < |clusters| ==> opts[i + 1] == OptionLine(clusters[i], activeNames)
  {
    opts := [KillOption];
    for i := 0 to |clusters|
      invariant |opts| == i + 1 && opts[0] == KillOption
      invariant forall j :: 0 <= j < i ==> opts[j + 1] == OptionLine(clusters[j], activeNames)
    {
      var c := clusters[i];
      var status := IdleGlyph;
      if c.name in activeNames {
        status := ActiveGlyph;
      }
      var icon := "";
      if c.directConnect {
        icon := [' ', GlobeIcon];
      }
      opts := opts + [[status] + " " + c.name + icon];
    }
  }

  // ---------------------------------------------------------------------------
  // matchCluster
  // ---------------------------------------------------------------------------

  /** The five forms of a cluster's name a selection may take. */
  predicate Matches(c: ClusterConfig, selected: string) {
    || c.name == selected
    || [ActiveGlyph] + " " + c.name == selected
    || [IdleGlyph] + " " + c.name == selected
    || [ActiveGlyph] + " " + c.name + Icon(c) == selected
    || [IdleGlyph] + " " + c.name + Icon(c) == selected
  }

  /** The index of the first cluster at or after `from` that the selection names. */
  function FirstMatch(clusters: seq<ClusterConfig>, selected: string, from: nat): (r: Option<nat>)
    ensures r.Some? ==> from <= r.value < |clusters| && Matches(clusters[r.value], selected)
    ensures r.Some? ==> forall j :: from <= j < r.value ==> !Matches(clusters[j], selected)
    ensures r.None? <==> forall j :: from <= j < |clusters| ==> !Matches(clusters[j], selected)
    decreases |clusters| - from
  {
    if from >= |clusters| then None
    else if Matches(clusters[from], selected) then Some(from)
    else FirstMatch(clusters, selected, from + 1)
  }

  /** `matchCluster`: the first cluster, in list order, that the selection names. */
  method MatchCluster(clusters: seq<ClusterConfig>, selected: string) returns (r: Option<nat>)
    ensures r == FirstMatch(clusters, selected, 0)
  {
    for i := 0 to |clusters|
      invariant FirstMatch(clusters, selected, i) == FirstMatch(clusters, selected, 0)
    {
      var c := clusters[i];
      var icon := "";
      if c.directConnect {
        icon := [' ', GlobeIcon];
      }
      if c.name == selected
        || [ActiveGlyph] + " " + c.name == selected
        || [IdleGlyph] + " " + c.name == selected
        || [ActiveGlyph] + " " + c.name + icon == selected
        || [IdleGlyph] + " " + c.name + icon == selected
      {
        return Some(i);
      }
    }
    return None;
  }

  /** A name that cannot be confused with a menu line's decoration. */
  predicate PlainName(name: string) {
    ActiveGlyph !in name && IdleGlyph !in name && GlobeIcon !in name
  }

  /** A line that starts with a glyph is no plain name. */
  lemma GlyphLineNotPlain(g: char, rest: string, name: string)
    requires g == ActiveGlyph || g == IdleGlyph
    requires PlainName(name)
    ensures name != [g] + rest
  {
    assert ([g] + rest)[0] == g;
  }

  /** Equal menu lines that share their two-character prefix agree after it. */
  lemma StripGlyph(h: char, u: string, g: char, v: string)
    ensures [h] + " " + u == [g] + " " + v ==> u == v
  {
    if [h] + " " + u == [g] + " " + v {
      assert u == ([h] + " " + u)[2..];
    }
  }

  /** A plain name followed by its icon ends in the globe exactly when the cluster connects directly. */
  lemma EndsInGlobe(x: ClusterConfig)
    requires PlainName(x.name)
    ensures var s := x.name + Icon(x);
      x.directConnect <==> |s| > 0 && s[|s| - 1] == GlobeIcon
  {
    var s := x.name + Icon(x);
    if !x.directConnect && |s| > 0 {
      assert s == x.name;
      assert s[|s| - 1] in x.name;
    }
  }

  /** Two plain names with their icons appended agree only when the names do. */
  lemma IconSuffix(a: ClusterConfig, b: ClusterConfig)
    requires PlainName(a.name) && PlainName(b.name)
    ensures a.name + Icon(a) == b.name + Icon(b) ==> a.name == b.name
  {
    var s := a.name + Icon(a);
    if s == b.name + Icon(b) {
      EndsInGlobe(a);
      EndsInGlobe(b);
      assert Icon(a) == Icon(b);
      assert a.name == s[..|a.name|] == b.name;
    }
  }

  /** The menu line of a cluster names that cluster. */
  lemma OptionLineMatches(c: ClusterConfig, activeNames: set<string>)
    ensures Matches(c, OptionLine(c, activeNames))
  {
  }

  /** The menu line of `c` names no cluster with another plain name. */
  lemma OptionLineNamesOnly(c: ClusterConfig, d: ClusterConfig, activeNames: set<string>)
    requires PlainName(c.name) && PlainName(d.name)
    requires d.name != c.name
    ensures !Matches(d, OptionLine(c, activeNames))
  {
    var g := if c.name in activeNames then ActiveGlyph else IdleGlyph;
    assert OptionLine(c, activeNames) == [g] + " " + c.name + Icon(c);
    GlyphLineNotPlain(g, " " + c.name + Icon(c), d.name);
    assert [g] + (" " + c.name + Icon(c)) == [g] + " " + c.name + Icon(c);
    var bare := d.(directConnect := false);
    assert [ActiveGlyph] + " " + d.name == [ActiveGlyph] + " " + bare.name + Icon(bare);
    assert [IdleGlyph] + " " + d.name == [IdleGlyph] + " " + bare.name + Icon(bare);
    OtherLine(ActiveGlyph, bare, g, c);
    OtherLine(IdleGlyph, bare, g, c);
    OtherLine(ActiveGlyph, d, g, c);
    OtherLine(IdleGlyph, d, g, c);
  }

  /** Menu lines of two clusters with different plain names differ, whatever their glyphs. */
  lemma OtherLine(h: char, x: ClusterConfig, g: char, c: ClusterConfig)
    requires PlainName(x.name) && PlainName(c.name) && x.name != c.name
    ensures [h] + " " + x.name + Icon(x) != [g] + " " + c.name + Icon(c)
  {
    assert [h] + " " + x.name + Icon(x) == [h] + " " + (x.name + Icon(x));
    assert [g] + " " + c.name + Icon(c) == [g] + " " + (c.name + Icon(c));
    StripGlyph(h, x.name + Icon(x), g, c.name + Icon(c));
    IconSuffix(x, c);
  }

  /**
   * The round trip between the menu and the match: for distinct plain names,
   * the line `buildOptions` shows for cluster `i` is read back to cluster `i`.
   */
  lemma MatchOptionLine(clusters: seq<ClusterConfig>, activeNames: set<string>, i: nat)
    requires i < |clusters|
    requires forall j :: 0 <= j < |clusters| ==> PlainName(clusters[j].name)
    requires forall j, k :: 0 <= j < k < |clusters| ==> clusters[j].name != clusters[k].name
    ensures FirstMatch(clusters, OptionLine(clusters[i], activeNames), 0) == Some(i)
  {
    var line := OptionLine(clusters[i], activeNames);
    OptionLineMatches(clusters[i], activeNames);
    forall j | 0 <= j < |clusters| && j != i ensures !Matches(clusters[j], line) {
      OptionLineNamesOnly(clusters[i], clusters[j], activeNames);
    }
    var r := FirstMatch(clusters, line, 0);
    assert r.Some? ==> r.value == i;
  }

  // ---------------------------------------------------------------------------
  // headlessSelect, fzfSelect and Select
  // ---------------------------------------------------------------------------

  /** `headlessSelect`: the kill words, else the matching cluster, else an error. */
  function HeadlessSelect(clusters: seq<ClusterConfig>, selection: string): (r: Result<Choice, string>)
    ensures r == Ok(KillAll) <==> selection == KillAllWord || selection == KillOption
    ensures r.Ok? && r.value.Picked? ==>
      exists i :: FirstMatch(clusters, selection, 0) == Some(i) && r.value.cluster == clusters[i]
    ensures r.Err? <==>
      selection != KillAllWord && selection != KillOption && FirstMatch(clusters, selection, 0).None?
    ensures r.Err? ==> r.error == "HEADLESS MODE: no cluster matching " + Quote(selection)
    ensures r.Ok? ==> !r.value.Cancel?
  {
    if selection == KillAllWord || selection == KillOption then Ok(KillAll)
    else
      match FirstMatch(clusters, selection, 0)
      case Some(i) => Ok(Picked(clusters[i]))
      case None => Err("HEADLESS MODE: no cluster matching " + Quote(selection))
  }

  /**
   * What the picker loop decides after the runs `runs` of the picker, each
   * either failed (`None`) or the picker's output: a failed run cancels, the
   * kill option kills all, a matching line picks its cluster, and anything
   * else shows the menu again. `None` when every run was re-prompted.
   */
  function FzfOutcome(clusters: seq<ClusterConfig>, runs: seq<Option<string>>): Option<Choice> {
    if runs == [] then None
    else
      match runs[0]
      case None => Some(Cancel)
      case Some(out) =>
        var selected := TrimSpace(out);
        if selected == KillOption then Some(KillAll)
        else
          match FirstMatch(clusters, selected, 0)
          case Some(i) => Some(Picked(clusters[i]))
          case None => FzfOutcome(clusters, runs[1..])
  }

  /** An unmatched selection is as if it had not been made: the loop asks again. */
  lemma FzfUnmatchedReprompts(clusters: seq<ClusterConfig>, out: string, runs: seq<Option<string>>)
    requires TrimSpace(out) != KillOption && FirstMatch(clusters, TrimSpace(out), 0).None?
    ensures FzfOutcome(clusters, [Some(out)] + runs) == FzfOutcome(clusters, runs)
  {
    assert ([Some(out)] + runs)[1..] == runs;
  }

  /** A run the loop stops at: a failed run, the kill option, or a match. */
  predicate Decisive(clusters: seq<ClusterConfig>, run: Option<string>) {
    run.None? || TrimSpace(run.value) == KillOption || FirstMatch(clusters, TrimSpace(run.value), 0).Some?
  }

  /** The loop decides at a decisive run, whatever runs would follow. */
  lemma FzfStopsAtDecisive(clusters: seq<ClusterConfig>, run: Option<string>, rest: seq<Option<string>>)
    requires Decisive(clusters, run)
    ensures FzfOutcome(clusters, [run] + rest) == FzfOutcome(clusters, [run])
    ensures FzfOutcome(clusters, [run]).Some?
  {
  }

  /** Runs that decide nothing are skipped. */
  lemma {:induction false} FzfSkipsUndecided(clusters: seq<ClusterConfig>, pre: seq<Option<string>>, rest: seq<Option<string>>)
    requires forall k :: 0 <= k < |pre| ==> !Decisive(clusters, pre[k])
    ensures FzfOutcome(clusters, pre + rest) == FzfOutcome(clusters, rest)
  {
    if pre != [] {
      var runs := pre + rest;
      assert runs[0] == pre[0] && runs[1..] == pre[1..] + rest;
      FzfFirstRun(clusters, runs);
      FzfSkipsUndecided(clusters, pre[1..], rest);
    } else {
      assert pre + rest == rest;
    }
  }

  /** A decisive run anywhere makes the loop decide. */
  lemma {:induction false} FzfDecides(clusters: seq<ClusterConfig>, runs: seq<Option<string>>, k: nat)
    requires k < |runs| && Decisive(clusters, runs[k])
    ensures FzfOutcome(clusters, runs).Some?
  {
    FzfFirstRun(clusters, runs);
    if k > 0 && !Decisive(clusters, runs[0]) {
      var rest := runs[1..];
      assert rest[k - 1] == runs[k];
      FzfDecides(clusters, rest, k - 1);
      assert FzfOutcome(clusters, runs) == FzfOutcome(clusters, rest);
    }
  }

  /** The loop runs out of answers exactly when no run decides. */
  lemma FzfUndecidedIff(clusters: seq<ClusterConfig>, runs: seq<Option<string>>)
    ensures FzfOutcome(clusters, runs).None? <==> forall k :: 0 <= k < |runs| ==> !Decisive(clusters, runs[k])
  {
    if forall k :: 0 <= k < |runs| ==> !Decisive(clusters, runs[k]) {
      assert runs + [] == runs;
      FzfSkipsUndecided(clusters, runs, []);
    } else {
      var k :| 0 <= k < |runs| && Decisive(clusters, runs[k]);
      FzfDecides(clusters, runs, k);
    }
  }

  /** The first run decides when it is decisive; otherwise the loop goes on with the rest. */
  lemma FzfFirstRun(clusters: seq<ClusterConfig>, runs: seq<Option<string>>)
    requires runs != []
    ensures Decisive(clusters, runs[0]) ==> FzfOutcome(clusters, runs).Some?
    ensures !Decisive(clusters, runs[0]) ==> FzfOutcome(clusters, runs) == FzfOutcome(clusters, runs[1..])
  {
  }

  /** `fzfSelect`: show the menu, run the picker, decide or ask again. */
  method FzfSelect(clusters: seq<ClusterConfig>, activeNames: set<string>, runs: seq<Option<string>>)
    returns (r: Option<Choice>, menu: seq<string>)
    ensures r == FzfOutcome(clusters, runs)
    ensures |menu| == |clusters| + 1 && menu[0] == KillOption
    ensures forall i :: 0 <= i < |clusters| ==> menu[i + 1] == OptionLine(clusters[i], activeNames)
  {
    menu := BuildOptions(clusters, activeNames);
    var k := 0;
    while k < |runs|
      invariant 0 <= k <= |runs|
      invariant FzfOutcome(clusters, runs[k..]) == FzfOutcome(clusters, runs)
      invariant |menu| == |clusters| + 1 && menu[0] == KillOption
      invariant forall i :: 0 <= i < |clusters| ==> menu[i + 1] == OptionLine(clusters[i], activeNames)
    {
      menu := BuildOptions(clusters, activeNames);
      assert runs[k..][0] == runs[k] && runs[k..][1..] == runs[k + 1..];
      var out := runs[k];
      if out.None? {
        return Some(Cancel), menu;
      }
      var selected := TrimSpace(out.value);
      if selected == KillOption {
        return Some(KillAll), menu;
      }
      var m := MatchCluster(clusters, selected);
      if m.Some? {
        return Some(Picked(clusters[m.value])), menu;
      }
      k := k + 1;
    }
    return None, menu;
  }

  /**
   * `Select`: a non-empty headless selection from the environment bypasses
   * the picker; otherwise the picker decides. The error case is only headless.
   */
  method Select(clusters: seq<ClusterConfig>, activeNames: set<string>, headless: string,
                runs: seq<Option<string>>) returns (r: Result<Option<Choice>, string>)
    ensures headless != "" ==> r == (match HeadlessSelect(clusters, headless)
                                    case Ok(c) => Ok(Some(c))
                                    case Err(e) => Err(e))
    ensures headless == "" ==> r == Ok(FzfOutcome(clusters, runs))
  {
    if headless != "" {
      var h := HeadlessSelect(clusters, headless);
      if h.Ok? {
        return Ok(Some(h.value));
      }
      return Err(h.error);
    }
    var choice, menu := FzfSelect(clusters, activeNames, runs);
    return Ok(choice);
  }
}
