/** The AGPS state machines and their manager as objects updated in place. Every method is
    proved to do what the function for it in AgpsProtocol.dfy says. Subscribers are held
    by value; a pointer to one in the list is its handle. */
module Agps {
  import opened Wrappers
  import opened AgpsProtocol

  datatype AgpsEvent = Subscribe | Unsubscribe | Granted | ConnReleased | Denied

  function EventOf(event: AgpsEvent, cur: AgpsSubscriber): Event {
    match event
    case Subscribe => SubscribeEvent(cur)
    case Unsubscribe => UnsubscribeEvent(cur)
    case Granted => GrantedEvent
    case ConnReleased => ReleasedEvent
    case Denied => DeniedEvent
  }

  /** The callbacks registered with the manager: what they have been called with. */
  class StatusCallbacks {
    var log: seq<Output>

    constructor ()
      ensures log == []
    {
      log := [];
    }

    method Call(o: Output)
      modifies this
      ensures log == old(log) + [o]
    {
      log := log + [o];
    }
  }

  lemma SplitStep(l: seq<AgpsSubscriber>, n: nat, which: NotificationType, ev: Event)
    requires n < |l|
    ensures var x, chosen, spared := l[n], Chosen(l[..n], which), Spared(l[..n], which);
            && Chosen(l[..n + 1], which) == (if Matches(x, which) then chosen + [x] else chosen)
            && Spared(l[..n + 1], which) == (if Matches(x, which) then spared else spared + [x])
            && Notices(ev, chosen + [x]) == Notices(ev, chosen) + [Notice(ev, x.mConnHandle)]
  {
    assert l[..n + 1][..n] == l[..n];
  }

  lemma LogStep(log: seq<Output>, notes: seq<Output>, o: Output)
    ensures log + (notes + [o]) == log + notes + [o]
  {
  }

  lemma NoneSplit(which: NotificationType, ev: Event)
    ensures Chosen([], which) == [] && Spared([], which) == [] && Notices(ev, []) == []
  {
  }

  lemma Advance(kept: seq<AgpsSubscriber>, l: seq<AgpsSubscriber>, n: nat)
    requires n < |l|
    ensures (kept + l[n..])[|kept|] == l[n]
    ensures kept + l[n..] == kept + [l[n]] + l[n + 1..]
    ensures (kept + l[n..])[..|kept|] + (kept + l[n..])[|kept| + 1..] == kept + l[n + 1..]
  {
  }

  /** Erasing the element that follows what is kept, and keeping it. */
  lemma EraseAt(kept: seq<AgpsSubscriber>, l: seq<AgpsSubscriber>, n: nat)
    requires n < |l|
    ensures var now := kept + l[n..];
            && now[|kept|] == l[n] && now[..|kept|] + now[|kept| + 1..] == kept + l[n + 1..]
            && now == (kept + [l[n]]) + l[n + 1..]
  {
  }

  class AgpsStateMachine {
    const nif: Nif
    const callbacks: StatusCallbacks
    var mSubscriberList: seq<AgpsSubscriber>
    var mCurrentSubscriber: AgpsSubscriber
    var mState: AgpsState

    constructor (nif: Nif, callbacks: StatusCallbacks)
      ensures Abs() == NEW_MACHINE && this.nif == nif && this.callbacks == callbacks
    {
      this.nif, this.callbacks := nif, callbacks;
      mSubscriberList, mState := [], AgpsState.Released;
      mCurrentSubscriber := AgpsSubscriber(0, false, false);
    }

    ghost function Abs(): Machine
      reads this
    {
      Machine(mState, mSubscriberList)
    }

    method SetCurrentSubscriber(subscriber: AgpsSubscriber)
      modifies this`mCurrentSubscriber
      ensures mCurrentSubscriber == subscriber
    {
      mCurrentSubscriber := subscriber;
    }

    method GetSubscriber(connHandle: int) returns (subscriber: Option<AgpsSubscriber>)
      ensures subscriber == Find(mSubscriberList, connHandle)
    {
      var it := 0;
      assert mSubscriberList[0..] == mSubscriberList;
      while it < |mSubscriberList|
        invariant 0 <= it <= |mSubscriberList|
        invariant Find(mSubscriberList[it..], connHandle) == Find(mSubscriberList, connHandle)
      {
        if mSubscriberList[it].mConnHandle == connHandle {
          return Some(mSubscriberList[it]);
        }
        it := it + 1;
      }
      return None;
    }

    method AnyActiveSubscribers() returns (any: bool)
      ensures any == AnyActive(mSubscriberList)
    {
      var it := 0;
      while it < |mSubscriberList|
        invariant 0 <= it <= |mSubscriberList|
        invariant forall i :: 0 <= i < it ==> mSubscriberList[i].mIsInactive
      {
        if !mSubscriberList[it].mIsInactive {
          return true;
        }
        it := it + 1;
      }
      return false;
    }

    /** Appends the subscriber unless its handle is in the list. */
    method AddSubscriber(subscriberToAdd: AgpsSubscriber)
      modifies this`mSubscriberList
      ensures mSubscriberList == Added(old(mSubscriberList), subscriberToAdd)
    {
      var it := 0;
      while it < |mSubscriberList|
        invariant 0 <= it <= |mSubscriberList|
        invariant forall i :: 0 <= i < it ==> !mSubscriberList[i].Equals(subscriberToAdd)
      {
        if mSubscriberList[it].Equals(subscriberToAdd) {
          return;
        }
        it := it + 1;
      }
      mSubscriberList := mSubscriberList + [subscriberToAdd];
    }

    /** Erases while iterating. */
    method DeleteSubscriber(subscriberToDelete: AgpsSubscriber)
      modifies this`mSubscriberList
      ensures mSubscriberList == Without(old(mSubscriberList), subscriberToDelete.mConnHandle)
    {
      ghost var l, n, kept := mSubscriberList, 0, mSubscriberList[..0];
      var it := 0;
      assert Without(l[..0], subscriberToDelete.mConnHandle) == kept;
      hide Without;
      while it < |mSubscriberList|
        invariant 0 <= n <= |l| && it == |kept| && mSubscriberList == kept + l[n..]
        invariant kept == Without(l[..n], subscriberToDelete.mConnHandle)
        decreases |l| - n
      {
        EraseAt(kept, l, n);
        WithoutNext(l, n, subscriberToDelete.mConnHandle);
        ghost var rest := l[n + 1..];
        if mSubscriberList[it].Equals(subscriberToDelete) {
          mSubscriberList := mSubscriberList[..it] + mSubscriberList[it + 1..];
          assert mSubscriberList == kept + rest;
        } else {
          it, kept := it + 1, kept + [l[n]];
          assert mSubscriberList == kept + rest;
        }
        n := n + 1;
      }
      assert l[..n] == l;
    }

    method NotifyEventToSubscriber(event: AgpsEvent, subscriberToNotify: AgpsSubscriber, deleteSubscriberPostNotify: bool)
      requires event != Subscribe
      modifies this`mSubscriberList, callbacks
      ensures callbacks.log == old(callbacks.log) + [Notice(EventOf(event, subscriberToNotify), subscriberToNotify.mConnHandle)]
      ensures mSubscriberList == if deleteSubscriberPostNotify then Without(old(mSubscriberList), subscriberToNotify.mConnHandle)
                                 else old(mSubscriberList)
    {
      match event {
        case Granted => callbacks.Call(OpenStatus(subscriberToNotify.mConnHandle, true));
        case Denied => callbacks.Call(OpenStatus(subscriberToNotify.mConnHandle, false));
        case Unsubscribe => callbacks.Call(CloseStatus(subscriberToNotify.mConnHandle, true));
        case ConnReleased => callbacks.Call(CloseStatus(subscriberToNotify.mConnHandle, true));
      }
      if deleteSubscriberPostNotify {
        DeleteSubscriber(subscriberToNotify);
      }
    }

    /** Notifies, and if so wished erases, the subscribers the notification is meant for. */
    method NotifyAllSubscribers(event: AgpsEvent, deleteSubscriberPostNotify: bool, which: NotificationType)
      requires event != Subscribe
      modifies this`mSubscriberList, callbacks
      ensures callbacks.log == old(callbacks.log) + Notices(EventOf(event, mCurrentSubscriber), Chosen(old(mSubscriberList), which))
      ensures mSubscriberList == if deleteSubscriberPostNotify then Spared(old(mSubscriberList), which) else old(mSubscriberList)
    {
      ghost var l, n, ev := mSubscriberList, 0, EventOf(event, mCurrentSubscriber);
      hide Chosen, Spared, Notices;
      assert Chosen(l[..0], which) == [] && Spared(l[..0], which) == [] && Notices(ev, []) == [] by {
        NoneSplit(which, ev);
      }
      var it := 0;
      while it < |mSubscriberList|
        invariant 0 <= n <= |l|
        invariant it == if deleteSubscriberPostNotify then |Spared(l[..n], which)| else n
        invariant mSubscriberList == if deleteSubscriberPostNotify then Spared(l[..n], which) + l[n..] else l
        invariant callbacks.log == old(callbacks.log) + Notices(ev, Chosen(l[..n], which))
        decreases |l| - n
      {
        SplitStep(l, n, which, ev);
        if deleteSubscriberPostNotify { Advance(Spared(l[..n], which), l, n); }
        var subscriber := mSubscriberList[it];
        if which.AllSubscribers? || (which.InactiveSubscribers? && subscriber.mIsInactive)
           || (which.ActiveSubscribers? && !subscriber.mIsInactive)
        {
          LogStep(old(callbacks.log), Notices(ev, Chosen(l[..n], which)), Notice(ev, subscriber.mConnHandle));
          NotifyEventToSubscriber(event, subscriber, false);
          assert callbacks.log == old(callbacks.log) + Notices(ev, Chosen(l[..n + 1], which));
          if deleteSubscriberPostNotify {
            mSubscriberList := mSubscriberList[..it] + mSubscriberList[it + 1..];
          } else {
            it := it + 1;
          }
        } else {
          it := it + 1;
        }
        n := n + 1;
      }
      assert l[..n] == l;
    }

    method RequestOrReleaseDataConn(request: bool) returns (result: int)
      modifies callbacks
      ensures result == 0 && callbacks.log == old(callbacks.log) + [DataConn(nif, request)]
    {
      callbacks.Call(DataConn(nif, request));
      result := 0;
    }

    method TransitionState(newState: AgpsState)
      modifies this`mState
      ensures mState == newState
    {
      mState := newState;
    }

    ghost predicate Did(r: Reply, log: seq<Output>)
      reads this, callbacks
    {
      Abs() == r.machine && callbacks.log == log + r.Sent(nif)
    }

    method ProcessSubscribe()
      modifies this`mSubscriberList, this`mState, callbacks
      ensures Did(OnSubscribe(old(Abs()), mCurrentSubscriber), old(callbacks.log))
    {
      match mState {
        case Released =>
          AddSubscriber(mCurrentSubscriber);
          var result := RequestOrReleaseDataConn(true);
          if result == 0 {
            TransitionState(Pending);
          }
        case Pending => AddSubscriber(mCurrentSubscriber);
        case Acquired =>
          NotifyEventToSubscriber(Granted, mCurrentSubscriber, false);
          AddSubscriber(mCurrentSubscriber);
        case Releasing => AddSubscriber(mCurrentSubscriber);
      }
    }

    /** Makes the current subscriber inactive if it waits for the close, and otherwise
        notifies and deletes it. */
    method LeaveCurrent()
      modifies this`mSubscriberList, callbacks
      ensures mSubscriberList == if mCurrentSubscriber.mWaitForCloseComplete then Deactivated(old(mSubscriberList), mCurrentSubscriber.mConnHandle)
                                 else Without(old(mSubscriberList), mCurrentSubscriber.mConnHandle)
      ensures callbacks.log == old(callbacks.log)
                               + if mCurrentSubscriber.mWaitForCloseComplete then [] else [CloseStatus(mCurrentSubscriber.mConnHandle, true)]
    {
      if mCurrentSubscriber.mWaitForCloseComplete {
        mSubscriberList := Deactivated(mSubscriberList, mCurrentSubscriber.mConnHandle);
      } else {
        NotifyEventToSubscriber(Unsubscribe, mCurrentSubscriber, true);
      }
    }

    method ProcessUnsubscribe()
      modifies this`mSubscriberList, this`mState, callbacks
      ensures Did(OnUnsubscribe(old(Abs()), mCurrentSubscriber), old(callbacks.log))
    {
      if mState.Released? {
        NotifyEventToSubscriber(Unsubscribe, mCurrentSubscriber, false);
      } else if mState.Pending? || mState.Acquired? {
        LeaveCurrent();
        var any := AnyActiveSubscribers();
        if mSubscriberList == [] {
          TransitionState(AgpsState.Released);
          var _ := RequestOrReleaseDataConn(false);
        } else if !any {
          TransitionState(Releasing);
          var _ := RequestOrReleaseDataConn(false);
        }
      } else {
        LeaveCurrent();
        if mSubscriberList == [] {
          TransitionState(AgpsState.Released);
        }
      }
    }

    method ProcessGranted()
      modifies this`mSubscriberList, this`mState, callbacks
      ensures Did(OnGranted(old(Abs())), old(callbacks.log))
    {
      if mState.Pending? {
        TransitionState(Acquired);
        NotifyAllSubscribers(Granted, false, ActiveSubscribers);
      }
    }

    /** The connection has closed: those who waited for it are told, and those who came
        meanwhile need a new one. */
    method FinishRelease()
      modifies this`mSubscriberList, this`mState, callbacks
      ensures Did(Closed(old(Abs())), old(callbacks.log))
    {
      NotifyAllSubscribers(ConnReleased, true, InactiveSubscribers);
      var any := AnyActiveSubscribers();
      if any {
        TransitionState(Pending);
        var _ := RequestOrReleaseDataConn(true);
      } else {
        TransitionState(AgpsState.Released);
      }
    }

    method ProcessReleased()
      modifies this`mSubscriberList, this`mState, callbacks
      ensures Did(OnReleased(old(Abs())), old(callbacks.log))
    {
      match mState {
        case Released =>
        case Acquired =>
          TransitionState(AgpsState.Released);
          NotifyAllSubscribers(ConnReleased, true, AllSubscribers);
        case Releasing => FinishRelease();
        case Pending =>
      }
    }

    method ProcessDenied()
      modifies this`mSubscriberList, this`mState, callbacks
      ensures Did(OnDenied(old(Abs())), old(callbacks.log))
    {
      match mState {
        case Released =>
        case Acquired =>
        case Releasing => FinishRelease();
        case Pending =>
          TransitionState(AgpsState.Released);
          NotifyAllSubscribers(Denied, true, AllSubscribers);
      }
    }

    method ProcessAgpsEvent(event: AgpsEvent)
      modifies this`mSubscriberList, this`mState, callbacks
      ensures Did(OnEvent(old(Abs()), EventOf(event, mCurrentSubscriber)), old(callbacks.log))
    {
      match event {
        case Subscribe => ProcessSubscribe();
        case Unsubscribe => ProcessUnsubscribe();
        case Granted => ProcessGranted();
        case ConnReleased => ProcessReleased();
        case Denied => ProcessDenied();
      }
    }
  }

  class AgpsManager {
    const callbacks: StatusCallbacks
    var mAgnssNif: AgpsStateMachine?
    var mInternetNif: AgpsStateMachine?

    ghost predicate Valid()
      reads this, mAgnssNif, mInternetNif
    {
      && (mAgnssNif != null ==> mAgnssNif.nif == Agnss && mAgnssNif.callbacks == callbacks)
      && (mInternetNif != null ==> mInternetNif.nif == Internet && mInternetNif.callbacks == callbacks)
    }

    ghost function Abs(): Manager
      reads this, mAgnssNif, mInternetNif
    {
      Manager(if mAgnssNif == null then None else Some(mAgnssNif.Abs()),
              if mInternetNif == null then None else Some(mInternetNif.Abs()))
    }

    ghost predicate Did(a: Answer, log: seq<Output>)
      reads this, mAgnssNif, mInternetNif, callbacks
    {
      Valid() && Abs() == a.manager && callbacks.log == log + a.sent
    }

    constructor (callbacks: StatusCallbacks)
      ensures Valid() && this.callbacks == callbacks && Abs() == START.manager
    {
      this.callbacks := callbacks;
      mAgnssNif, mInternetNif := null, null;
    }

    method CreateAgpsStateMachines(agpsCapable: bool)
      requires Valid()
      modifies this
      ensures Did(OnCall(old(Abs()), CreateMachines(agpsCapable)), old(callbacks.log))
      ensures mAgnssNif == old(mAgnssNif) || fresh(mAgnssNif)
      ensures mInternetNif == old(mInternetNif) || fresh(mInternetNif)
    {
      if mInternetNif == null {
        mInternetNif := new AgpsStateMachine(Internet, callbacks);
      }
      if agpsCapable {
        if mAgnssNif == null {
          mAgnssNif := new AgpsStateMachine(Agnss, callbacks);
        }
      }
    }

    method GetAgpsStateMachine(agpsType: int) returns (sm: AgpsStateMachine?)
      ensures sm == if NifOf(agpsType).Agnss? then mAgnssNif else mInternetNif
    {
      if agpsType == LOC_AGPS_TYPE_INVALID || agpsType == LOC_AGPS_TYPE_SUPL || agpsType == LOC_AGPS_TYPE_SUPL_ES {
        sm := mAgnssNif;
      } else {
        sm := mInternetNif;
      }
    }

    method RequestATL(connHandle: int, agpsType: int)
      requires Valid()
      modifies callbacks, mAgnssNif, mInternetNif
      ensures Did(OnCall(old(Abs()), Call.RequestATL(connHandle, agpsType)), old(callbacks.log))
    {
      var sm := GetAgpsStateMachine(agpsType);
      if sm == null {
        callbacks.Call(OpenStatus(connHandle, false));
      } else {
        var subscriber := AgpsSubscriber(connHandle, false, false);
        if agpsType == LOC_AGPS_TYPE_SUPL_ES {
          subscriber := subscriber.(mWaitForCloseComplete := true);
        }
        sm.SetCurrentSubscriber(subscriber);
        sm.ProcessAgpsEvent(Subscribe);
      }
    }

    /** Searches all machines for the handle. */
    method ReleaseATL(connHandle: int)
      requires Valid()
      modifies callbacks, mAgnssNif, mInternetNif
      ensures Did(OnCall(old(Abs()), Call.ReleaseATL(connHandle)), old(callbacks.log))
    {
      var sm: AgpsStateMachine? := null;
      var subscriber: Option<AgpsSubscriber> := None;
      if mAgnssNif != null {
        subscriber := mAgnssNif.GetSubscriber(connHandle);
        if subscriber.Some? {
          sm := mAgnssNif;
        }
      }
      if sm == null && mInternetNif != null {
        subscriber := mInternetNif.GetSubscriber(connHandle);
        if subscriber.Some? {
          sm := mInternetNif;
        }
      }
      if sm == null {
        callbacks.Call(CloseStatus(connHandle, false));
      } else {
        sm.SetCurrentSubscriber(subscriber.value);
        sm.ProcessAgpsEvent(Unsubscribe);
      }
    }

    method Report(agpsType: int, event: AgpsEvent)
      requires Valid() && Abs().Get(NifOf(agpsType)).Some? && !event.Subscribe? && !event.Unsubscribe?
      modifies callbacks, mAgnssNif, mInternetNif
      ensures Did(Process(old(Abs()), NifOf(agpsType), EventOf(event, AgpsSubscriber(0, false, false))), old(callbacks.log))
    {
      var sm := GetAgpsStateMachine(agpsType);
      sm.ProcessAgpsEvent(event);
    }

    method ReportAtlOpenSuccess(agpsType: int)
      requires Valid() && Callable(Abs(), OpenSuccess(agpsType))
      modifies callbacks, mAgnssNif, mInternetNif
      ensures Did(OnCall(old(Abs()), OpenSuccess(agpsType)), old(callbacks.log))
    {
      Report(agpsType, Granted);
    }

    method ReportAtlOpenFailed(agpsType: int)
      requires Valid() && Callable(Abs(), OpenFailed(agpsType))
      modifies callbacks, mAgnssNif, mInternetNif
      ensures Did(OnCall(old(Abs()), OpenFailed(agpsType)), old(callbacks.log))
    {
      Report(agpsType, Denied);
    }

    method ReportAtlClosed(agpsType: int)
      requires Valid() && Callable(Abs(), ConnClosed(agpsType))
      modifies callbacks, mAgnssNif, mInternetNif
      ensures Did(OnCall(old(Abs()), ConnClosed(agpsType)), old(callbacks.log))
    {
      Report(agpsType, ConnReleased);
    }
  }
}
