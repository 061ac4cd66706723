/** The drift drawer: a button with a badge, and a drawer that polls the
    repository status every 10 seconds while it is open.  The polling effect
    depends on the open flag and on a refresh counter. */
module GitStatusDrawer {
  import opened Text
  import opened Wire

  const PollMs: int := 10000

  /** The tag shown for a status string. */
  datatype Tag = SyncedTag | AheadTag | BehindTag | DivergedTag | ErrorTag | UnknownTag

  datatype Badge = ErrorBadge | WarningBadge

  function StatusTag(status: string): Tag {
    if status == "synced" then SyncedTag
    else if status == "ahead" then AheadTag
    else if status == "behind" then BehindTag
    else if status == "diverged" then DivergedTag
    else if status == "error" then ErrorTag
    else UnknownTag
  }

  /** The colour of a tag: success, warning, error, or the default. */
  function TagColor(t: Tag): string {
    match t
    case SyncedTag => "success"
    case AheadTag => "warning"
    case BehindTag => "warning"
    case DivergedTag => "error"
    case ErrorTag => "error"
    case UnknownTag => ""
  }

  /** The badge on the button: shown for a held status other than "synced". */
  function ButtonBadge(data: Option<GitStatusResponse>): Option<Badge> {
    if data.None? || data.value.status == "synced" then None
    else if data.value.status == "error" || data.value.status == "diverged" then Some(ErrorBadge)
    else Some(WarningBadge)
  }

  /** The "no detailed diff" note. */
  predicate ShowsNoDiffNote(data: GitStatusResponse) {
    data.diff == "" && data.status != "synced"
  }

  /** The five statuses the backend produces each have their own tag; any other
      string is shown as unknown. */
  lemma TagsAreDistinct(status: string)
    ensures StatusTag(status) == UnknownTag <==>
              status !in {"synced", "ahead", "behind", "diverged", "error"}
    ensures StatusTag("synced") != StatusTag("ahead") && StatusTag("ahead") != StatusTag("behind")
  {
  }

  /** The badge appears iff a status is held and it is not "synced", and its
      style agrees with the tag: the error badge exactly for the red tags. */
  lemma BadgeAgreesWithTag(data: Option<GitStatusResponse>)
    ensures ButtonBadge(data).Some? <==> data.Some? && data.value.status != "synced"
    ensures ButtonBadge(data) == Some(ErrorBadge) <==> data.Some? && TagColor(StatusTag(data.value.status)) == "error"
  {
  }

  /** An installed interval timer. */
  datatype Timer = Timer(id: nat, periodMs: int)

  class Drawer {
    var open: bool
    var data: Option<GitStatusResponse>
    var loading: bool
    var pollingCount: nat
    var live: seq<Timer>
    var cleared: seq<nat>
    var nextId: nat
    /** Status requests issued so far. */
    var requests: nat

    /** Exactly one 10 s poll timer while open, none while closed. */
    ghost predicate Valid()
      reads this
    {
      (open ==> |live| == 1 && live[0].periodMs == PollMs && live[0].id < nextId) &&
      (!open ==> live == [])
    }

    constructor ()
      ensures Valid() && !open && data.None? && !loading && pollingCount == 0 && requests == 0 && live == []
      ensures cleared == [] && nextId == 0
    {
      open, data, loading, pollingCount := false, None, false, 0;
      live, cleared, nextId, requests := [], [], 0, 0;
    }

    /** The effect: the previous cycle's timer is cleared; when open, the status
        is requested at once and a new 10 s timer installed. */
    method Restart()
      requires |live| <= 1 && (open ==> forall k :: 0 <= k < |live| ==> live[k].id < nextId)
      modifies this
      ensures Valid()
      ensures cleared == old(cleared) + (if |old(live)| == 1 then [old(live)[0].id] else [])
      ensures open ==> requests == old(requests) + 1 && loading && live == [Timer(old(nextId), PollMs)] && nextId == old(nextId) + 1
      ensures !open ==> nextId == old(nextId)
      ensures !open ==> requests == old(requests) && loading == old(loading) && live == []
      ensures open == old(open) && data == old(data) && pollingCount == old(pollingCount)
    {
      if |live| > 0 {
        cleared := cleared + [live[0].id];
        live := [];
      }
      if open {
        requests := requests + 1;
        loading := true;
        live := [Timer(nextId, PollMs)];
        nextId := nextId + 1;
      }
    }

    /** The button opens the drawer. */
    method Open()
      requires Valid()
      modifies this
      ensures Valid() && open && data == old(data)
      ensures !old(open) ==> requests == old(requests) + 1 && live == [Timer(old(nextId), PollMs)]
      ensures !old(open) ==> cleared == old(cleared) && nextId == old(nextId) + 1
      ensures old(open) ==> requests == old(requests) && live == old(live) && cleared == old(cleared)
    {
      if !open {
        open := true;
        Restart();
      }
    }

    /** Closing the drawer stops polling. */
    method Close()
      requires Valid()
      modifies this
      ensures Valid() && !open && live == [] && requests == old(requests) && data == old(data) && nextId == old(nextId)
      ensures old(open) ==> cleared == old(cleared) + [old(live)[0].id]
    {
      if open {
        open := false;
        Restart();
      }
    }

    /** The refresh button: the counter changes, so the cycle restarts. */
    method Refresh()
      requires Valid()
      modifies this
      ensures Valid() && pollingCount == old(pollingCount) + 1 && open == old(open) && data == old(data)
      ensures open ==> requests == old(requests) + 1 && cleared == old(cleared) + [old(live)[0].id] &&
                       live == [Timer(old(nextId), PollMs)]
      ensures !open ==> requests == old(requests) && live == []
    {
      pollingCount := pollingCount + 1;
      Restart();
    }

    /** The poll timer fires: another status request. */
    method Tick(t: Timer)
      requires Valid() && t in live
      modifies this`requests, this`loading
      ensures requests == old(requests) + 1 && loading
    {
      requests := requests + 1;
      loading := true;
    }

    /** A status request settles: a parsed body replaces the held status; a
        failure keeps it. */
    method StatusCompleted(reply: Option<GitStatusResponse>)
      requires Valid()
      modifies this`data, this`loading
      ensures reply.Some? ==> data == reply
      ensures reply.None? ==> data == old(data)
      ensures !loading
    {
      if reply.Some? {
        data := reply;
      }
      loading := false;
    }
  }

  /** Opening polls at once; closing clears the timer, after which no tick can
      arrive; reopening starts a fresh cycle. */
  method PollingScenario() returns (afterOpen: nat, afterClose: nat, canTickClosed: bool, afterReopen: nat, cleared: seq<nat>)
    ensures afterOpen == 1 && afterClose == 1 && !canTickClosed && afterReopen == 2 && cleared == [0]
  {
    var d := new Drawer();
    d.Open();
    afterOpen := d.requests;
    d.Close();
    afterClose := d.requests;
    canTickClosed := |d.live| > 0;
    d.Open();
    afterReopen := d.requests;
    cleared := d.cleared;
  }
}
