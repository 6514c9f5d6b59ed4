/**
 What a renewal spends. A credential is spent once, unconditionally; the refresh
 token that it carries is spent once as long as no answer hands it on.
 */
module Renewals {
  import opened Prelude
  import opened Records
  import opened Store
  import opened Accounts
  import opened AccountSafety

  // ---- Credentials ----

  /** The version holds this credential for some alias, as its credential or as its pending replacement. */
  ghost predicate Holding(v: Document, serial: nat) {
    exists a :: a in v.oauth
      && ((v.oauth[a].credential.Some? && v.oauth[a].credential.value.serial == serial)
          || (v.oauth[a].pending.Some? && v.oauth[a].pending.value.serial == serial))
  }

  /**
   In every run, with any interleaving, fault and power loss, and whatever the
   authority answers, no credential is handed to `driver.renew` twice, and one
   that was handed over is in no version of the document that could still come
   back.
   */
  lemma CredentialsAreRenewedOnce(m: Manager, w: World)
    requires Reachable(m, w)
    ensures forall i, j :: 0 <= i < j < |w.renewed| ==> w.renewed[i] != w.renewed[j]
    ensures forall i, v :: 0 <= i < |w.renewed| && v in w.disk.DocumentFile(m.profile).Versions() ==>
      !Holding(v, w.renewed[i])
  {
    ReachableIsInOrder(m, w);
    forall i, v | 0 <= i < |w.renewed| && v in w.disk.DocumentFile(m.profile).Versions()
      ensures !Holding(v, w.renewed[i])
    {
      assert AccountsOk(m, w, v.oauth);
      assert forall a :: a in v.oauth ==> AccountOk(m, w, a, v.oauth[a]);
    }
  }

  lemma RenewingIsRefresh(m: Manager, w: World, e: Event)
    requires Apply(m, w, e).renewed != w.renewed
    ensures e.StartRefresh? && Draft(m, w, e).Some?
  {
    hide Draft;
  }

  /** A credential goes to `driver.renew` only in a step that has just made a document without it durable. */
  lemma RenewalFollowsDurableRemoval(m: Manager, w: World, e: Event)
    requires Inv(m, w) && Apply(m, w, e).renewed != w.renewed
    ensures var w' := Apply(m, w, e);
            && |w'.renewed| == |w.renewed| + 1 && w'.renewed[..|w.renewed|] == w.renewed
            && Holding(w.disk.Current(m.profile), w'.renewed[|w.renewed|])
            && w'.disk.DocumentFile(m.profile).Durable()
            && !Holding(w'.disk.Current(m.profile), w'.renewed[|w.renewed|])
  {
    hide Draft, Idle, NextOps, Issue, Disk.Publish;
    var w' := Apply(m, w, e);
    RenewingIsRefresh(m, w, e);
    StepKeepsInv(m, w, e);
    VisibleOk(m, w');
    var draft := Draft(m, w, e).value;
    PublishedAccounts(m, w, draft, EnvOf(e).io);
    var accounts := w'.disk.Current(m.profile).oauth;
    assert forall a :: a in accounts ==> AccountOk(m, w', a, accounts[a]);
  }

  // ---- Refresh tokens ----

  /** The token was sent to the authority with one of the first `n` renewals. */
  ghost predicate SentBefore(w: World, token: Option<nat>, n: nat)
    requires SpentOk(w) && n <= |w.renewed|
  {
    exists i :: 0 <= i < n && w.issued[w.renewed[i]].refresh == token
  }

  /** A refresh token is named by the credential that brought it, and all that keep it were issued later. */
  lemma {:induction false} Root(w: World, serial: nat, n: nat) returns (root: nat)
    requires SpentOk(w) && serial < |w.issued| && w.issued[serial].refresh.Some? && n <= |w.renewed|
    requires w.issued[serial].kept.Some? ==> w.issued[serial].kept.value in w.renewed[..n]
    ensures root < |w.issued| && w.issued[root].kept.None? && w.issued[serial].refresh == Some(root)
    ensures w.issued[serial].kept.Some? ==> root in w.renewed[..n]
    ensures w.issued[serial].kept.None? ==> root == serial
  {
    assert TokenOk(w.issued, w.renewed, serial);
    if w.issued[serial].kept.None? {
      root := serial;
    } else {
      var kept := w.issued[serial].kept.value;
      var i :| 0 <= i < n && w.renewed[i] == kept;
      root := Root(w, kept, i);
    }
  }

  /** A credential that kept its token shares it with one that was sent before. */
  lemma KeptWasSent(w: World, serial: nat, n: nat)
    requires SpentOk(w) && serial < |w.issued| && n <= |w.renewed|
    requires w.issued[serial].kept.Some? && w.issued[serial].kept.value in w.renewed[..n]
    ensures SentBefore(w, w.issued[serial].refresh, n)
  {
    assert TokenOk(w.issued, w.renewed, serial);
    var i :| 0 <= i < n && w.renewed[i] == w.issued[serial].kept.value;
    assert w.issued[w.renewed[i]].refresh == w.issued[serial].refresh;
  }

  /** The token of a credential that brought its own was not sent while that credential was not. */
  lemma NewWasNotSent(w: World, serial: nat, n: nat)
    requires SpentOk(w) && serial < |w.issued| && n <= |w.renewed|
    requires w.issued[serial].kept.None? && serial !in w.renewed[..n]
    ensures !SentBefore(w, w.issued[serial].refresh, n)
  {
    assert TokenOk(w.issued, w.renewed, serial);
    if i :| 0 <= i < n && w.issued[w.renewed[i]].refresh == w.issued[serial].refresh {
      var root := Root(w, w.renewed[i], i);
      assert w.renewed[i] in w.renewed[..n];
      assert root in w.renewed[..i] ==> root in w.renewed[..n];
    }
  }

  /**
   In every run, a renewal sends a refresh token that an earlier renewal has
   already sent if and only if the answer that issued its credential handed the
   token on: it repeated the token that was presented, or left it out.
   */
  lemma TokensRepeatExactlyWhenKept(m: Manager, w: World, j: nat)
    requires Reachable(m, w) && j < |w.renewed|
    ensures SpentOk(w)
    ensures SentBefore(w, w.issued[w.renewed[j]].refresh, j) <==> w.issued[w.renewed[j]].kept.Some?
  {
    ReachableIsInOrder(m, w);
    var serial := w.renewed[j];
    if w.issued[serial].kept.Some? {
      KeptWasSent(w, serial, j);
    } else {
      NewWasNotSent(w, serial, j);
    }
  }

  /**
   Likewise for what is stored: a credential in a version that may survive
   carries a token that was already sent if and only if its answer handed the
   token on.
   */
  lemma StoredTokensWereSentExactlyWhenKept(m: Manager, w: World, v: Document, alias: string, c: Credential)
    requires Reachable(m, w) && v in w.disk.DocumentFile(m.profile).Versions() && alias in v.oauth
    requires Some(c) in {v.oauth[alias].credential, v.oauth[alias].pending}
    ensures SpentOk(w) && c.serial < |w.issued|
    ensures SentBefore(w, c.refresh, |w.renewed|) <==> w.issued[c.serial].kept.Some?
  {
    ReachableIsInOrder(m, w);
    assert AccountsOk(m, w, v.oauth);
    assert AccountOk(m, w, alias, v.oauth[alias]) && Unspent(w, alias, c);
    assert w.renewed[..|w.renewed|] == w.renewed;
    assert TokenOk(w.issued, w.renewed, c.serial);
    if w.issued[c.serial].kept.Some? {
      KeptWasSent(w, c.serial, |w.renewed|);
    } else {
      NewWasNotSent(w, c.serial, |w.renewed|);
    }
  }

  // ---- Authorities that rotate ----

  /** No answer in the step hands a refresh token on. */
  predicate Rotates(e: Event) {
    match e
    case FinishLogin(_, _, answer, _) => !answer.refresh.SameToken?
    case RenewVerified(_, _, answer, _) => !answer.refresh.SameToken?
    case RenewPending(_, answer, _) => !answer.refresh.SameToken?
    case _ => true
  }

  /**
   What a credential keeps is decided by the answer that issues it, and is the
   token of the credential being renewed.
   */
  lemma AnswersDecideWhatIsKept(m: Manager, w: World, e: Event)
    requires Draft(m, w, e).Some? && (e.FinishLogin? || e.RenewVerified? || e.RenewPending?)
    ensures var issued := Apply(m, w, e).issued;
            && |issued| == |w.issued| + 1
            && (issued[|w.issued|].kept.Some? <==> !Rotates(e))
            && (issued[|w.issued|].kept.Some? ==>
                  e.id in w.ops && w.ops[e.id].Renewing? && issued[|w.issued|].kept == Some(w.ops[e.id].previous.serial)
                  && issued[|w.issued|].refresh == w.ops[e.id].previous.refresh)
  {
    hide DraftFinish, DraftRenewed, Disk.Publish, NextOps, Taken, Locked;
  }

  ghost predicate NothingKept(w: World) { forall s: nat :: s < |w.issued| ==> w.issued[s].kept.None? }

  lemma StepKeepsNothing(m: Manager, w: World, e: Event)
    requires NothingKept(w) && Rotates(e)
    ensures NothingKept(Apply(m, w, e))
  {
    hide Draft, Disk.Publish, NextOps, Taken;
  }

  lemma {:induction false} RunKeepsNothing(m: Manager, events: seq<Event>)
    requires forall i :: 0 <= i < |events| ==> Rotates(events[i])
    ensures NothingKept(Run(m, Start, events))
  {
    if events != [] {
      RunKeepsNothing(m, events[..|events| - 1]);
      StepKeepsNothing(m, Run(m, Start, events[..|events| - 1]), events[|events| - 1]);
    }
  }

  /** With an authority that brings a new refresh token whenever it brings one, no token is ever sent twice. */
  lemma RotatedTokensAreSentOnce(m: Manager, events: seq<Event>)
    requires forall i :: 0 <= i < |events| ==> Rotates(events[i])
    ensures var w := Run(m, Start, events);
            && SpentOk(w)
            && forall i, j :: 0 <= i < j < |w.renewed| ==>
                 w.issued[w.renewed[i]].refresh != w.issued[w.renewed[j]].refresh
  {
    var w := Run(m, Start, events);
    assert Reachable(m, w);
    ReachableIsInOrder(m, w);
    RunKeepsNothing(m, events);
    forall i, j | 0 <= i < j < |w.renewed| ensures w.issued[w.renewed[i]].refresh != w.issued[w.renewed[j]].refresh {
      TokensRepeatExactlyWhenKept(m, w, j);
    }
  }
}
