/**
 * What the admin page's checks guarantee: a selection is accepted exactly when both limits hold,
 * both limits admit a size equal to them, the total is checked before any single file, a rejection
 * names the first file over the limit, and every manage request the tab sends passes the endpoint's
 * own validation.
 */
module AdminPageLaws {

  import opened Wrappers
  import opened AdminPage
  import ManageRoute
  import ManageRouteLaws
  import Db
  import B2

  /**
   * A selection is accepted exactly when its total is at most 50 MiB and every file is at most
   * 25 MiB. An oversize total is reported even when a single file is also too large; otherwise the
   * message names the first file over the limit.
   */
  lemma VerdictIff(s: seq<Chosen>)
    ensures Verdict(s).Ok? <==> Total(s) <= TotalLimit && forall k :: 0 <= k < |s| ==> s[k].size <= FileLimit
    ensures Total(s) > TotalLimit ==> Verdict(s) == Err(TotalTooLarge)
    ensures forall i :: 0 <= i < |s| && Total(s) <= TotalLimit && s[i].size > FileLimit
                        && (forall k :: 0 <= k < i ==> s[k].size <= FileLimit) ==>
              Verdict(s) == Err(FileTooLarge(s[i].name))
  {
    forall i | 0 <= i < |s| && Total(s) <= TotalLimit && s[i].size > FileLimit && (forall k :: 0 <= k < i ==> s[k].size <= FileLimit)
      ensures Verdict(s) == Err(FileTooLarge(s[i].name))
    {
      FirstOversizeUnique(s, i);
    }
  }

  /** Both limits are strict: two files of exactly 25 MiB, 50 MiB together, are accepted; one byte more on either is not. */
  lemma LimitsAdmitTheirBound(a: string, b: string)
    ensures Verdict([Chosen(a, FileLimit), Chosen(b, FileLimit)]) == Ok(())
    ensures Verdict([Chosen(a, FileLimit + 1)]) == Err(FileTooLarge(a))
    ensures Verdict([Chosen(a, FileLimit), Chosen(b, FileLimit + 1)]) == Err(TotalTooLarge)
  {
    var two := [Chosen(a, FileLimit), Chosen(b, FileLimit)];
    assert two[..1] == [Chosen(a, FileLimit)];
    assert [Chosen(a, FileLimit)][..0] == [];
    assert Total([Chosen(a, FileLimit)]) == FileLimit;
    assert Total(two) == TotalLimit;
    var over := [Chosen(a, FileLimit), Chosen(b, FileLimit + 1)];
    assert over[..1] == [Chosen(a, FileLimit)];
    assert [Chosen(a, FileLimit + 1)][..0] == [];
    assert Total(over) == TotalLimit + 1;
  }

  /** The total counts every file: it is the sum of the parts of any split of the selection. */
  lemma {:induction false} TotalSplits(s: seq<Chosen>, t: seq<Chosen>)
    ensures Total(s + t) == Total(s) + Total(t)
    decreases |t|
  {
    if |t| > 0 {
      assert (s + t)[..|s + t| - 1] == s + t[..|t| - 1];
      TotalSplits(s, t[..|t| - 1]);
    } else {
      assert s + t == s;
    }
  }

  /** The selection is cleared only after a successful reply; a 413 always reads as a size problem. */
  lemma UploadSettledRules(outcome: UploadOutcome)
    ensures UploadSettled(outcome).1 <==> outcome.UploadReplied? && Ok2xx(outcome.status)
    ensures outcome.UploadReplied? && outcome.status == 413 ==> UploadSettled(outcome).0 == TooLargeForHost
    ensures outcome.UploadReplied? && !Ok2xx(outcome.status) && outcome.status != 413 ==>
              UploadSettled(outcome).0 == (if B2.Truthy(outcome.message) then outcome.message.value else "Upload failed")
  {
  }

  /** A failed manage request always leaves a non-empty message. */
  lemma ManageFailureHasMessage(outcome: ManageOutcome)
    ensures (outcome.ManageThrew? || !Ok2xx(outcome.status)) ==> ManageSettled(outcome).Some? && ManageSettled(outcome).value != ""
  {
  }

  /** The request the manage endpoint receives for a body the tab sends. */
  function RequestFor(adminPassword: Option<string>, b: ManageBody): ManageRoute.Request
  {
    ManageRoute.Request(adminPassword, Some(ManageRoute.Body(Some(b.action), Some(b.sourcePath), b.targetPath)))
  }

  /**
   * Every body the tab sends passes the endpoint's validation: with the password configured the
   * endpoint never answers 400, and a delete carries no target.
   */
  lemma SentBodiesPassValidation(action: Action, source: string, target: string,
                                 adminPassword: Option<string>, t: Db.Tables, f: Db.Faults, objects: B2.Bucket,
                                 env: B2.Env, sf: B2.StoreFaults, now: nat, rules: ManageRoute.Rules)
    requires source != "" && (action == DeleteAction || target != "")
    requires B2.Truthy(adminPassword)
    ensures BodyFor(action, source, target).targetPath.None? <==> action == DeleteAction
    ensures ManageRoute.Manage(t, f, objects, env, sf, RequestFor(adminPassword, BodyFor(action, source, target)), now, rules).2.status != 400
  {
    var b := BodyFor(action, source, target);
    if action == DeleteAction {
      ManageRouteLaws.DeleteOrder(t, f, objects, sf, source);
    } else {
      ManageRouteLaws.MoveSucceedsIff(t, f, objects, env, sf, b.action, source, target, now, rules);
    }
  }
}
