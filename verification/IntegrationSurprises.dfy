/** Homes in which a second installation is not undone by uninstalling. */
module IntegrationSurprises {
  import opened Basics
  import opened JsonTree
  import opened HooksModel
  import opened IntegrationModel
  import opened IntegrationRoundTrip
  import opened Reinstallation
  import H = HooksRoundTrip

  const OLD := "/a/lili-hook"
  const NEW := "/b/lili-hook"
  const THEIRS := [Text("notify-send")]

  /** A home with nothing in it. */
  const EMPTY := Home(Missing, Missing, None)

  /** A home in which someone else's command is notified. */
  const NOTIFYING := Home(Parsed(map["notify" := Argv(THEIRS)]), Missing, None)

  lemma TheirsIsUnmarked()
    ensures !ArgvMarked(THEIRS)
  {
    assert |"notify-send"| < |MARKER|;
    assert !Marked("notify-send");
    assert forall arg :: arg in THEIRS ==> arg == Text("notify-send");
  }

  lemma FirstIsPossible(home: Home, mode: Mode)
    requires home == EMPTY || (home == NOTIFYING && mode == Coexist)
    ensures Unmarked(home) && Installable(home, OLD, mode)
    ensures Notify(ConfigOf(home)) == if home == EMPTY then NoNotify else OtherNotify
  {
    TheirsIsUnmarked();
    assert H.HooksIn(ToOption(home.hooks)) == map[];
    InstallableExactly(home, OLD, mode);
  }

  lemma PlacesDiffer()
    ensures OLD != NEW
  {
    assert OLD[1] != NEW[1];
  }

  lemma InstalledTwice(home: Home, first: Mode, binary: string, second: Mode) returns (after: Home, again: Home)
    requires home == EMPTY || (home == NOTIFYING && first == Coexist)
    ensures Unmarked(home) && Installs(home, OLD, first, after) && Installs(after, binary, second, again)
  {
    FirstIsPossible(home, first);
    after := InstalledHome(home, OLD, first);
    InstalledHomeIs(home, OLD, first);
    OneMoreInstall(home, [], home, Request(OLD, first), after);
    assert [] + [Request(OLD, first)] == [Request(OLD, first)];
    FurtherIsPossible(home, [Request(OLD, first)], after, Request(binary, second));
    again := InstalledHome(after, binary, second);
    InstalledHomeIs(after, binary, second);
  }

  /** Installed from one place and then from another, nothing of ours can be uninstalled but the setting. */
  lemma MovedIsLeftBehind() returns (after: Home, again: Home)
    ensures Installs(EMPTY, OLD, Coexist, after) && Installs(after, NEW, Coexist, again)
    ensures var (end, result) := Uninstall(again);
            && result.Ok? && !result.value.complete && result.value.conflict && result.value.removed == 0
            && end.hooks == after.hooks && end.config != Missing
  {
    after, again := InstalledTwice(EMPTY, Coexist, NEW, Coexist);
    PlacesDiffer();
    FirstIsPossible(EMPTY, Coexist);
    TwiceInstalledComesBackExactly(EMPTY, OLD, Coexist, after, NEW, Coexist, again);
  }

  /** Coexisting first and exclusive then, uninstalling is complete and the original command is lost. */
  lemma OriginalIsLost() returns (after: Home, again: Home)
    ensures Installs(NOTIFYING, OLD, Coexist, after) && Installs(after, OLD, Exclusive, again)
    ensures Uninstall(again).1.Ok? && Uninstall(again).1.value.complete
    ensures Uninstall(again).0.config.Parsed? && "notify" !in Uninstall(again).0.config.document
  {
    after, again := InstalledTwice(NOTIFYING, Coexist, OLD, Exclusive);
    FirstIsPossible(NOTIFYING, Coexist);
    TwiceInstalledComesBackExactly(NOTIFYING, OLD, Coexist, after, OLD, Exclusive, again);
    ExclusiveForgetsOriginal(NOTIFYING, OLD, Coexist, after, OLD, again);
  }
}
