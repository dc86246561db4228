/** The tracker class, its fields updated in place by its own methods and by the answers that come
    back. Each method takes the step of the machine. */
module RepositoryStatus {
  import opened Prelude
  import opened StatusTracker

  class RepositoryStatusTracker {
    var targetDirectory: Option<string>
    var fallbackBranch: Option<string>
    var branchCache: Option<string>
    var pullRequest: Option<PullRequest>
    var pullRequestKey: Option<string>
    var activeLookup: Option<nat>
    var lookupGeneration: nat
    var refreshPending: bool
    var disposed: bool
    var lookups: map<nat, Flight>
    ghost var source: Option<Flight>

    constructor ()
      ensures View() == START
    {
      targetDirectory, fallbackBranch, branchCache := None, None, None;
      pullRequest, pullRequestKey := None, None;
      activeLookup, lookupGeneration, refreshPending := None, 0, false;
      disposed := false;
      lookups := map[];
      source := None;
    }

    ghost function View(): Tracker
      reads this
    {
      Tracker(targetDirectory, fallbackBranch, branchCache, pullRequest, pullRequestKey, activeLookup, lookupGeneration,
              refreshPending, disposed, lookups, source)
    }

    method GetBranch() returns (branch: Option<string>)
      ensures branch == BranchOf(View())
    {
      branch := SafeBranchName(OrElse(branchCache, fallbackBranch));
    }

    method RefreshNow()
      modifies this
      ensures View() == Refreshed(old(View()))
    {
      if disposed || targetDirectory.None? || targetDirectory.value == "" || pullRequestKey.None? { return; }
      if activeLookup.Some? {
        refreshPending := true;
        return;
      }
      lookupGeneration := lookupGeneration + 1;
      activeLookup := Some(lookupGeneration);
      lookups := lookups[lookupGeneration := Flight(targetDirectory.value, pullRequestKey.value, false)];
    }

    method CancelLookup()
      modifies this
      ensures View() == Cancelled(old(View()))
    {
      lookupGeneration := lookupGeneration + 1;
      if activeLookup.Some? && activeLookup.value in lookups {
        lookups := lookups[activeLookup.value := lookups[activeLookup.value].(aborted := true)];
      }
      activeLookup := None;
      refreshPending := false;
    }

    method SyncPullRequestTarget() returns (changed: bool)
      modifies this
      ensures View() == Retargeted(old(View()))
      ensures changed == (old(pullRequestKey) != KeyOf(old(targetDirectory), BranchOf(old(View()))))
    {
      var branch := GetBranch();
      var nextKey := KeyOf(targetDirectory, branch);
      if nextKey == pullRequestKey { return false; }
      CancelLookup();
      pullRequestKey := nextKey;
      pullRequest, source := None, None;
      if nextKey.Some? { RefreshNow(); }
      return true;
    }

    method OnTarget(directory: string, fallback: Option<string>, head: Option<string>) returns (notify: bool)
      requires directory != ""
      modifies this
      ensures View() == Step(old(View()), SyncTarget(directory, fallback, head))
      ensures notify <==> targetDirectory != old(targetDirectory) || BranchOf(View()) != old(BranchOf(View()))
                          || pullRequestKey != old(pullRequestKey)
    {
      if disposed { return false; }
      var targetChanged := Some(directory) != targetDirectory;
      var previousBranch := GetBranch();
      fallbackBranch := fallback;
      if targetChanged {
        targetDirectory := Some(directory);
        branchCache := BranchFromHead(head);
      }
      var keyChanged := SyncPullRequestTarget();
      var branch := GetBranch();
      notify := targetChanged || previousBranch != branch || keyChanged;
    }

    method OnHead(directory: string, head: Option<string>) returns (notify: bool)
      modifies this
      ensures View() == Step(old(View()), HeadChanged(directory, head))
      ensures notify <==> BranchOf(View()) != old(BranchOf(View())) || pullRequestKey != old(pullRequestKey)
    {
      if targetDirectory != Some(directory) { return false; }
      var previousBranch := GetBranch();
      branchCache := BranchFromHead(head);
      var keyChanged := SyncPullRequestTarget();
      var branch := GetBranch();
      notify := previousBranch != branch || keyChanged;
    }

    method OnAnswer(generation: nat, next: Option<PullRequest>) returns (notify: bool)
      requires generation in lookups
      modifies this
      ensures View() == Step(old(View()), Answered(generation, next))
      ensures notify <==> pullRequest != old(pullRequest)
    {
      var flight := lookups[generation];
      lookups := lookups - {generation};
      notify := false;
      if next.Some? && !disposed && generation == lookupGeneration && pullRequestKey == Some(flight.key) {
        source := Some(flight);
      }
      if next.Some? && !disposed && generation == lookupGeneration && pullRequestKey == Some(flight.key)
         && pullRequest != next {
        pullRequest := next;
        notify := true;
      }
      if activeLookup != Some(generation) { return; }
      activeLookup := None;
      if refreshPending {
        refreshPending := false;
        RefreshNow();
      }
    }

    method Close()
      modifies this
      ensures View() == Step(old(View()), Dispose)
    {
      if disposed { return; }
      disposed := true;
      CancelLookup();
      targetDirectory, fallbackBranch, branchCache := None, None, None;
      pullRequest, pullRequestKey, source := None, None, None;
    }
  }
}
