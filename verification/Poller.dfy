/** The poller: a dense array of descriptors, a map to their channels, and an index kept in each channel. */
module Poller {

  datatype PollFd = PollFd(fd: int, events: int, revents: int)

  class Channel {
    const fd: int
    var index: int
    var events: int
    var activeEvents: int

    constructor (fd: int)
      ensures this.fd == fd && index == -1
    {
      this.fd, index, events, activeEvents := fd, -1, 0, 0;
    }
  }

  ghost predicate Known(channels: map<int, Channel>, ps: seq<PollFd>) {
    forall i :: 0 <= i < |ps| ==> ps[i].fd in channels
  }

  /** The channels of the entries that are ready, in array order. */
  ghost function ReadyChannels(channels: map<int, Channel>, ps: seq<PollFd>): seq<Channel>
    requires Known(channels, ps)
  {
    if ps == [] then []
    else
      var n := |ps| - 1;
      ReadyChannels(channels, ps[..n]) + (if ps[n].revents > 0 then [channels[ps[n].fd]] else [])
  }

  lemma ReadyNext(channels: map<int, Channel>, ps: seq<PollFd>, i: nat)
    requires Known(channels, ps) && i < |ps|
    ensures ReadyChannels(channels, ps[..i + 1]) ==
      ReadyChannels(channels, ps[..i]) + if ps[i].revents > 0 then [channels[ps[i].fd]] else []
  {
    assert ps[..i + 1][..i] == ps[..i];
  }

  /** The ready channels of the first entries come first. */
  lemma {:induction false} ReadyPrefix(channels: map<int, Channel>, ps: seq<PollFd>, i: nat)
    requires Known(channels, ps) && i <= |ps|
    ensures ReadyChannels(channels, ps[..i]) <= ReadyChannels(channels, ps)
    decreases |ps| - i
  {
    if i < |ps| {
      ReadyNext(channels, ps, i);
      ReadyPrefix(channels, ps, i + 1);
    } else {
      assert ps[..i] == ps;
    }
  }

  /** A channel is among them exactly when an entry of its descriptor has events. */
  lemma {:induction false} ReadyIsReady(channels: map<int, Channel>, ps: seq<PollFd>, c: Channel)
    requires Known(channels, ps)
    ensures c in ReadyChannels(channels, ps) <==> exists i :: 0 <= i < |ps| && ps[i].revents > 0 && channels[ps[i].fd] == c
  {
    if ps != [] {
      var n := |ps| - 1;
      ReadyIsReady(channels, ps[..n], c);
      if c in ReadyChannels(channels, ps[..n]) {
        var i :| 0 <= i < n && ps[..n][i].revents > 0 && channels[ps[..n][i].fd] == c;
        assert ps[i].revents > 0 && channels[ps[i].fd] == c;
      }
      if i :| 0 <= i < |ps| && ps[i].revents > 0 && channels[ps[i].fd] == c {
        assert i < n ==> ps[..n][i] == ps[i];
      }
    }
  }

  /** What poll(2) leaves in the array. */
  function Answered(pollfds: seq<PollFd>, revents: seq<int>): (ps: seq<PollFd>)
    requires |revents| == |pollfds|
    ensures |ps| == |pollfds|
  {
    seq(|pollfds|, i requires 0 <= i < |pollfds| => pollfds[i].(revents := revents[i]))
  }

  /** What poll(2) returns: how many entries have events. */
  function Count(ps: seq<PollFd>): nat {
    if ps == [] then 0 else Count(ps[..|ps| - 1]) + if ps[|ps| - 1].revents > 0 then 1 else 0
  }

  lemma {:induction false} CountIsReady(channels: map<int, Channel>, ps: seq<PollFd>)
    requires Known(channels, ps)
    ensures Count(ps) == |ReadyChannels(channels, ps)|
  {
    if ps != [] { CountIsReady(channels, ps[..|ps| - 1]); }
  }

  class Poller {
    var pollfds: seq<PollFd>
    var channels: map<int, Channel>

    constructor ()
      ensures Valid() && channels == map[] && Polled() == map[]
    {
      pollfds, channels := [], map[];
    }

    static function Min(n: int, k: nat): nat {
      if n < 0 then 0 else if n < k then n else k
    }

    /** Array and map are two views of one set of channels, and every channel knows its place. */
    ghost predicate Valid()
      reads this, channels.Values
    {
      && (forall i :: 0 <= i < |pollfds| ==>
            pollfds[i].fd in channels && channels[pollfds[i].fd].index == i)
      && (forall fd :: fd in channels ==>
            fd >= 0 && channels[fd].fd == fd && 0 <= channels[fd].index < |pollfds| && pollfds[channels[fd].index].fd == fd)
    }

    /** What poll is asked for: each live descriptor with its events. */
    ghost function Polled(): map<int, int>
      requires Valid()
      reads this, channels.Values
    {
      map fd | fd in channels :: pollfds[channels[fd].index].events
    }

    /** The channel is registered here, or new. */
    ghost predicate Usable(channel: Channel)
      reads this, channel
    {
      channel.fd >= 0 && if channel.fd in channels then channels[channel.fd] == channel else channel.index < 0
    }

    method UpdateChannel(channel: Channel)
      requires Valid() && Usable(channel)
      modifies this, channel`index
      ensures Valid()
      ensures channels == old(channels)[channel.fd := channel]
      ensures Polled() == old(Polled())[channel.fd := channel.events]
      ensures 0 <= channel.index < |pollfds| && pollfds[channel.index] == PollFd(channel.fd, channel.events, 0)
    {
      if channel.index < 0 {
        var pfd := PollFd(channel.fd, channel.events, 0);
        pollfds := pollfds + [pfd];
        channel.index := |pollfds| - 1;
        channels := channels[pfd.fd := channel];
      } else {
        var idx := channel.index;
        pollfds := pollfds[idx := PollFd(channel.fd, channel.events, 0)];
      }
      assert Valid();
      assert Polled() == old(Polled())[channel.fd := channel.events] by {
        forall fd | fd in channels ensures Polled()[fd] == old(Polled())[channel.fd := channel.events][fd] {
          if fd != channel.fd {
            assert fd in old(channels) && old(channels)[fd] == channels[fd];
          }
        }
      }
    }

    /** Swap with the last entry, and drop it. A channel that is not registered is left alone. */
    method RemoveChannel(channel: Channel)
      requires Valid() && (channel.fd in channels ==> channels[channel.fd] == channel)
      modifies this, channels.Values`index
      ensures Valid()
      ensures channels == old(channels) - {channel.fd}
      ensures Polled() == old(Polled()) - {channel.fd}
      ensures forall c <- old(channels.Values) :: c.index == old(c.index) || (old(c.index) == |pollfds| && c.index == old(channel.index))
      ensures channel.fd !in old(channels) ==> pollfds == old(pollfds)
      ensures channel.fd in old(channels) ==>
        |pollfds| == |old(pollfds)| - 1 &&
        forall i :: 0 <= i < |pollfds| ==> pollfds[i] == old(pollfds)[if i == old(channel.index) then |pollfds| else i]
    {
      if channel.fd !in channels { return; }
      var idx := channel.index;
      var pfd := pollfds[idx];
      channels := channels - {pfd.fd};
      if idx == |pollfds| - 1 {
        pollfds := pollfds[..|pollfds| - 1];
      } else {
        var last := |pollfds| - 1;
        var channelAtEnd := pollfds[last].fd;
        pollfds := pollfds[idx := pollfds[last]][last := pollfds[idx]];
        // Not taken: no descriptor here is negative. The original has it for descriptors that are switched off.
        if channelAtEnd < 0 {
          channelAtEnd := -channelAtEnd - 1;
        }
        channels[channelAtEnd].index := idx;
        pollfds := pollfds[..last];
      }
      assert Valid();
      assert Polled() == old(Polled()) - {channel.fd} by {
        forall fd | fd in channels ensures Polled()[fd] == old(Polled())[fd] {
          assert old(channels)[fd] == channels[fd];
        }
      }
    }

    /** The channels of the first `numEvents` ready entries, in array order; with the true count, of all of them. */
    method FillActiveChannels(numEvents: int, active: seq<Channel>) returns (filled: seq<Channel>)
      requires Valid()
      modifies channels.Values`activeEvents
      ensures Valid() && Polled() == old(Polled())
      ensures Known(channels, pollfds)
      ensures var ready := ReadyChannels(channels, pollfds);
        filled == active + ready[..Min(numEvents, |ready|)]
      ensures forall j :: 0 <= j < |pollfds| && channels[pollfds[j].fd] in filled[|active|..] ==>
        channels[pollfds[j].fd].activeEvents == pollfds[j].revents > 0
      ensures forall c <- channels.Values :: c in filled[|active|..] || c.activeEvents == old(c.activeEvents)
    {
      hide ReadyChannels, Valid;
      filled := active;
      var left := numEvents;
      var i := 0;
      ReadyNone();
      while i < |pollfds| && left > 0
        invariant 0 <= i <= |pollfds| && Valid() && Polled() == old(Polled())
        invariant Known(channels, pollfds[..i]) && Known(channels, pollfds) && (numEvents <= 0 ==> i == 0)
        invariant var seen := ReadyChannels(channels, pollfds[..i]);
          filled == active + seen && left == numEvents - |seen| && (numEvents > 0 ==> left >= 0)
        invariant Marked(i)
        invariant forall c <- channels.Values :: c in filled[|active|..] || c.activeEvents == old(c.activeEvents)
      {
        ghost var seen := ReadyChannels(channels, pollfds[..i]);
        ReadyNext(channels, pollfds, i);
        KnownPrefix(i + 1);
        if pollfds[i].revents > 0 {
          left := left - 1;
          var channel := channels[pollfds[i].fd];
          Activate(i, channel);
          assert (filled + [channel])[|active|..] == filled[|active|..] + [channel];
          filled := filled + [channel];
        } else {
          NotMarked(i);
        }
        i := i + 1;
      }
      Filled(i, active, filled);
      ReadyPrefix(channels, pollfds, i);
      if i == |pollfds| { assert pollfds[..i] == pollfds; }
    }

    /** The answer of the kernel is written into the array. */
    method SetRevents(revents: seq<int>)
      requires Valid() && |revents| == |pollfds|
      modifies this`pollfds
      ensures Valid() && Polled() == old(Polled()) && pollfds == Answered(old(pollfds), revents)
    {
      pollfds := Answered(pollfds, revents);
      assert Valid();
      assert Polled() == old(Polled()) by {
        forall fd | fd in channels ensures Polled()[fd] == old(Polled())[fd] {
          assert pollfds[channels[fd].index].events == old(pollfds)[channels[fd].index].events;
        }
      }
    }

    /** One poll, which the kernel answers with `revents`: all ready channels, in array order. */
    method Poll(revents: seq<int>, active: seq<Channel>) returns (filled: seq<Channel>)
      requires Valid() && |revents| == |pollfds|
      modifies this`pollfds, channels.Values`activeEvents
      ensures Valid() && Polled() == old(Polled()) && pollfds == Answered(old(pollfds), revents)
      ensures Known(channels, pollfds) && filled == active + ReadyChannels(channels, pollfds)
      ensures forall j :: 0 <= j < |pollfds| && channels[pollfds[j].fd] in filled[|active|..] ==>
        channels[pollfds[j].fd].activeEvents == pollfds[j].revents > 0
    {
      SetRevents(revents);
      ReadyNone();
      CountIsReady(channels, pollfds);
      var numEvents := Count(pollfds);
      if numEvents > 0 {
        filled := FillActiveChannels(numEvents, active);
      } else {
        filled := active;
      }
    }

    lemma ReadyNone()
      requires Valid()
      ensures Known(channels, pollfds) && Known(channels, pollfds[..0])
      ensures ReadyChannels(channels, pollfds[..0]) == [] && Marked(0)
    {
    }

    lemma KnownPrefix(i: nat)
      requires Known(channels, pollfds) && i <= |pollfds|
      ensures Known(channels, pollfds[..i])
    {
    }

    /** The ready channels among the first entries have been told their events. */
    ghost predicate Marked(i: nat)
      requires i <= |pollfds| && Known(channels, pollfds)
      reads this, channels.Values
    {
      forall j :: 0 <= j < i && pollfds[j].revents > 0 ==> channels[pollfds[j].fd].activeEvents == pollfds[j].revents
    }

    lemma NotMarked(i: nat)
      requires Known(channels, pollfds) && i < |pollfds| && pollfds[i].revents <= 0 && Marked(i)
      ensures Marked(i + 1)
    {
    }

    /** Channel::setActiveEvents on the channel of a ready entry. */
    method Activate(i: nat, channel: Channel)
      requires Valid() && i < |pollfds| && Known(channels, pollfds) && Marked(i) && channel == channels[pollfds[i].fd]
      modifies channel`activeEvents
      ensures Valid() && Polled() == old(Polled()) && Marked(i + 1)
    {
      channel.activeEvents := pollfds[i].revents;
    }

    lemma Filled(i: nat, active: seq<Channel>, filled: seq<Channel>)
      requires Valid() && Known(channels, pollfds) && i <= |pollfds|
      requires filled == active + ReadyChannels(channels, pollfds[..i])
      requires Marked(i)
      ensures forall j :: 0 <= j < |pollfds| && channels[pollfds[j].fd] in filled[|active|..] ==>
        channels[pollfds[j].fd].activeEvents == pollfds[j].revents > 0
    {
      forall j | 0 <= j < |pollfds| && channels[pollfds[j].fd] in filled[|active|..]
        ensures channels[pollfds[j].fd].activeEvents == pollfds[j].revents > 0
      {
        var c := channels[pollfds[j].fd];
        ReadyIsReady(channels, pollfds[..i], c);
        var h :| 0 <= h < i && pollfds[..i][h].revents > 0 && channels[pollfds[..i][h].fd] == c;
        assert pollfds[..i][h] == pollfds[h] && c.index == h && c.index == j;
      }
    }
  }
}
