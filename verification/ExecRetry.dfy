/** How a client finds a meta server that executes its command. */
module ExecRetry {
  import opened Times

  const MAX_RETRIES := 10

  datatype Reply =
    | Success(index: nat)
    | Redirect(host: string)
    | CommandError(msg: string)    // the command itself was refused
    | Failure(msg: string)         // the server could not be reached or is not ready

  datatype Result = Executed(index: nat) | ClientClosed | Failed(e: Reply) | Crashed

  predicate Retryable(e: Reply) {
    e.Redirect? || e.Failure?
  }

  /** After this reply the next attempt goes to a given server. */
  predicate Redirects(e: Reply) {
    e.Redirect? && e.host != ""
  }

  /** The address of attempt k: where the last reply redirected to, or else one of the servers. */
  ghost predicate GoesWhere(servers: seq<string>, reply: (nat, string) -> Reply, urls: seq<string>, k: nat)
    requires k < |urls|
  {
    var last := if k > 0 then reply(k - 1, urls[k - 1]) else Redirect("");
    if last.Redirect? && last.host != "" then urls[k] == last.host else urls[k] in servers
  }

  ghost predicate Follows(servers: seq<string>, reply: (nat, string) -> Reply, urls: seq<string>) {
    forall k :: 0 <= k < |urls| ==> GoesWhere(servers, reply, urls, k)
  }

  ghost predicate NoRedirect(reply: (nat, string) -> Reply, urls: seq<string>) {
    forall k :: 0 <= k < |urls| ==> !reply(k, urls[k]).Redirect? || reply(k, urls[k]).host == ""
  }

  /** The servers are tried in turn. */
  ghost predicate InTurn(servers: seq<string>, urls: seq<string>)
    requires servers != []
  {
    forall k :: 0 <= k < |urls| ==> urls[k] == servers[k % |servers|]
  }

  ghost predicate AllRetried(reply: (nat, string) -> Reply, closed: nat -> bool, urls: seq<string>) {
    forall k :: 0 <= k < |urls| ==> !closed(k) && (reply(k, urls[k]).Redirect? || reply(k, urls[k]).Failure?)
  }

  lemma FollowsSnoc(servers: seq<string>, reply: (nat, string) -> Reply, urls: seq<string>, url: string)
    requires Follows(servers, reply, urls)
    requires if urls != [] && Redirects(reply(|urls| - 1, urls[|urls| - 1]))
             then url == reply(|urls| - 1, urls[|urls| - 1]).host else url in servers
    ensures Follows(servers, reply, urls + [url])
  {
    var all := urls + [url];
    forall k | 0 <= k < |all|
      ensures GoesWhere(servers, reply, all, k)
    {
      assert k < |urls| ==> GoesWhere(servers, reply, urls, k);
    }
  }

  lemma NoRedirectPrefix(reply: (nat, string) -> Reply, urls: seq<string>, url: string)
    requires NoRedirect(reply, urls + [url])
    ensures NoRedirect(reply, urls) && !Redirects(reply(|urls|, url))
  {
    var all := urls + [url];
    assert !Redirects(reply(|urls|, all[|urls|]));
    forall k | 0 <= k < |urls|
      ensures !Redirects(reply(k, urls[k]))
    {
      assert all[k] == urls[k];
    }
  }

  /** The server to try, as an index that may be one past the end. */
  ghost predicate AtTurn(currentServer: nat, tries: nat, n: nat)
    requires n > 0
  {
    currentServer == tries % n || (currentServer == n && tries % n == 0)
  }

  lemma NextServer(k: nat, n: nat)
    requires n > 0
    ensures AtTurn(k % n + 1, k + 1, n)
  {
    if k % n + 1 == n {
      Euclid(k + 1, n, k / n + 1, 0);
    } else {
      Euclid(k + 1, n, k / n, k % n + 1);
    }
  }

  /** Without redirects so far, the servers were tried in turn and the index points at the next. */
  ghost predicate Turn(servers: seq<string>, reply: (nat, string) -> Reply, urls: seq<string>, currentServer: nat)
    requires servers != []
  {
    NoRedirect(reply, urls) ==> InTurn(servers, urls) && AtTurn(currentServer, |urls|, |servers|)
  }

  /** The server for the next attempt, and the index moved on. */
  method PickServer(servers: seq<string>, redirectServer: string, currentServer: nat) returns (url: string, next: nat)
    requires servers != []
    ensures redirectServer != "" ==> url == redirectServer && next == currentServer + 1
    ensures redirectServer == "" ==>
              && url == servers[if currentServer >= |servers| then 0 else currentServer]
              && next == (if currentServer >= |servers| then 0 else currentServer) + 1
  {
    next := currentServer;
    if redirectServer != "" {
      url := redirectServer;
    } else {
      if next >= |servers| {
        next := 0;
      }
      url := servers[next];
    }
    next := next + 1;
  }

  lemma TurnSnoc(
    servers: seq<string>, reply: (nat, string) -> Reply, urls: seq<string>, url: string, next: nat, currentServer: nat)
    requires servers != [] && Turn(servers, reply, urls, currentServer)
    requires urls == [] || !Redirects(reply(|urls| - 1, urls[|urls| - 1])) ==>
               && url == servers[if currentServer >= |servers| then 0 else currentServer]
               && next == (if currentServer >= |servers| then 0 else currentServer) + 1
    ensures Turn(servers, reply, urls + [url], next)
  {
    if NoRedirect(reply, urls + [url]) {
      NoRedirectPrefix(reply, urls, url);
      LastNotRedirected(reply, urls);
      NextServer(|urls|, |servers|);
      InTurnSnoc(servers, urls, url);
    }
  }

  lemma InTurnSnoc(servers: seq<string>, urls: seq<string>, url: string)
    requires servers != [] && InTurn(servers, urls) && url == servers[|urls| % |servers|]
    ensures InTurn(servers, urls + [url])
  {
    var all := urls + [url];
    forall k | 0 <= k < |all|
      ensures all[k] == servers[k % |servers|]
    {
      assert k < |urls| ==> all[k] == urls[k];
    }
  }

  lemma AllRetriedSnoc(reply: (nat, string) -> Reply, closed: nat -> bool, urls: seq<string>, url: string)
    requires AllRetried(reply, closed, urls) && !closed(|urls|) && Retryable(reply(|urls|, url))
    ensures AllRetried(reply, closed, urls + [url])
  {
  }

  /**
   reply says what the server at an address answers to attempt number k, and
   closed whether the client is closed before attempt k.  A client without meta
   servers crashes, unless it is closed.
   */
  method RetryUntilExec(
    servers: seq<string>, reply: (nat, string) -> Reply, closed: nat -> bool)
    returns (r: Result, urls: seq<string>)
    ensures |urls| <= 11 && (servers == [] ==> urls == [])
    ensures r.Crashed? <==> servers == [] && !closed(0)
    ensures r.ClientClosed? <==> closed(|urls|) && AllRetried(reply, closed, urls) && |urls| <= 10
    ensures forall k :: 0 <= k < |urls| ==> !closed(k)
    ensures forall k :: 0 <= k < |urls| && (reply(k, urls[k]).Success? || reply(k, urls[k]).CommandError?) ==>
              k == |urls| - 1 && (r.Executed? || r.Failed?)
    ensures r.Executed? || r.Failed? ==>
              && urls != []
              && var e := reply(|urls| - 1, urls[|urls| - 1]);
                 match r
                 case Executed(index) => e == Success(index)
                 case Failed(f) => f == e && !e.Success? && (e.Redirect? || e.Failure? ==> |urls| == 11)
    ensures forall k :: 0 <= k < |urls| ==> GoesWhere(servers, reply, urls, k)
    ensures servers != [] && NoRedirect(reply, urls) ==> InTurn(servers, urls)
  {
    assert servers != [] ==> Turn(servers, reply, [], 0);
    var tries, currentServer, redirectServer := 0, 0, "";
    urls := [];
    while true
      invariant tries == |urls| <= MAX_RETRIES && 0 <= currentServer
      invariant AllRetried(reply, closed, urls)
      invariant redirectServer == if urls != [] && Redirects(reply(tries - 1, urls[tries - 1]))
                                  then reply(tries - 1, urls[tries - 1]).host else ""
      invariant Follows(servers, reply, urls)
      invariant if servers == [] then urls == [] else Turn(servers, reply, urls, currentServer)
      decreases MAX_RETRIES - tries
    {
      hide Follows, NoRedirect, InTurn, AtTurn, AllRetried;
      if closed(tries) {
        return ClientClosed, urls;
      }
      if redirectServer == "" && |servers| == 0 {
        return Crashed, urls;
      }
      var url;
      ghost var current := currentServer;
      url, currentServer := PickServer(servers, redirectServer, currentServer);
      redirectServer := "";
      FollowsSnoc(servers, reply, urls, url);
      TurnSnoc(servers, reply, urls, url, currentServer, current);
      if Retryable(reply(tries, url)) {
        AllRetriedSnoc(reply, closed, urls, url);
      }
      ghost var before := urls;
      var e := reply(tries, url);
      urls := urls + [url];
      tries := tries + 1;
      assert urls[..|urls| - 1] == before;
      if e.Success? {
        return Executed(e.index), urls;
      }
      if tries > MAX_RETRIES {
        return Failed(e), urls;
      }
      if e.Redirect? {
        redirectServer := e.host;
        continue;
      }
      if e.CommandError? {
        return Failed(e), urls;
      }
    }
  }

  lemma LastNotRedirected(reply: (nat, string) -> Reply, urls: seq<string>)
    requires NoRedirect(reply, urls)
    ensures urls != [] ==> !Redirects(reply(|urls| - 1, urls[|urls| - 1]))
  {
  }
}
