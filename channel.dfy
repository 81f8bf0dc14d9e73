/** The channel registry of daemon/channel.py: named channels with a creator
    and a member list, and for each user the channels they created or joined. */
module Channels {
  import opened Collections

  type Username = string
  type ChannelName = string

  /** One entry of `channel`. `members` holds strings: the creator's name, then
      whatever `join_channel` appended. */
  datatype ChannelInfo = ChannelInfo(creator: Username, members: seq<string>, createdAt: nat)

  /** One element of the list `list_all_channels` returns. */
  datatype ChannelSummary = ChannelSummary(name: ChannelName, creator: Username, membersCount: nat, createdAt: nat)

  /** The member list after `join_channel` as written: a newcomer causes the
      channel's NAME to be appended, not the newcomer's. */
  function JoinedMembers(members: seq<string>, channelName: ChannelName, username: Username): seq<string> {
    if username !in members then members + [channelName] else members
  }

  /** As written, joining never makes the joiner a member (unless the joiner's
      name is the channel's), so a second join grows the list again. */
  lemma JoinNeverAddsJoiner(members: seq<string>, channelName: ChannelName, username: Username)
    requires username !in members && username != channelName
    ensures username !in JoinedMembers(members, channelName, username)
    ensures |JoinedMembers(JoinedMembers(members, channelName, username), channelName, username)| == |members| + 2
  {
  }

  /** A concrete run: "bob" joins "room" of "alice" twice. */
  lemma JoinTwiceExample()
    ensures JoinedMembers(JoinedMembers(["alice"], "room", "bob"), "room", "bob") == ["alice", "room", "room"]
  {
    assert "bob" !in ["alice"];
    assert "bob" !in ["alice", "room"];
  }

  /** The member list after a join as evidently intended: the joiner is appended once. */
  function AddMember(members: seq<string>, username: Username): (r: seq<string>)
    ensures username in r
    ensures forall m :: m in r <==> m in members || m == username
    ensures |r| == |members| + (if username in members then 0 else 1)
  {
    if username !in members then members + [username] else members
  }

  /** Joining twice, as intended, has no effect the second time. */
  lemma AddMemberIdempotent(members: seq<string>, username: Username)
    ensures AddMember(AddMember(members, username), username) == AddMember(members, username)
  {
  }

  /** The channels `user` appears under in `user_channels`, empty when absent. */
  function Listed(userChannels: map<Username, seq<ChannelName>>, user: Username): seq<ChannelName> {
    if user in userChannels then userChannels[user] else []
  }

  function Summarize(name: ChannelName, info: ChannelInfo): ChannelSummary {
    ChannelSummary(name, info.creator, |info.members|, info.createdAt)
  }

  ghost predicate Registry(channel: Dict<ChannelName, ChannelInfo>, userChannels: map<Username, seq<ChannelName>>) {
    && channel.Valid()
    && (forall c :: c in channel.entries ==>
          && |channel.entries[c].members| >= 1
          && channel.entries[c].members[0] == channel.entries[c].creator)
    && (forall c :: c in channel.entries ==> c in Listed(userChannels, channel.entries[c].creator))
  }

  /** Creating a channel under a free name keeps the registry's invariant. */
  lemma CreateKeepsRegistry(channel: Dict<ChannelName, ChannelInfo>, userChannels: map<Username, seq<ChannelName>>,
                            name: ChannelName, creator: Username, now: nat)
    requires Registry(channel, userChannels)
    requires name !in channel.entries
    ensures Registry(Put(channel, name, ChannelInfo(creator, [creator], now)),
                     userChannels[creator := Listed(userChannels, creator) + [name]])
  {
    var channel' := Put(channel, name, ChannelInfo(creator, [creator], now));
    var userChannels' := userChannels[creator := Listed(userChannels, creator) + [name]];
    forall c | c in channel'.entries
      ensures c in Listed(userChannels', channel'.entries[c].creator)
    {
      if c != name && channel.entries[c].creator == creator {
        assert c in Listed(userChannels, creator);
      }
    }
  }

  /** Appending to a known channel's members, and to a user's channels, keeps the registry's invariant. */
  lemma JoinKeepsRegistry(channel: Dict<ChannelName, ChannelInfo>, userChannels: map<Username, seq<ChannelName>>,
                          name: ChannelName, username: Username, extra: string)
    requires Registry(channel, userChannels)
    requires name in channel.entries
    ensures var info := channel.entries[name];
      Registry(Put(channel, name, info.(members := info.members + [extra])),
               userChannels[username := Listed(userChannels, username) + [name]])
  {
    var info := channel.entries[name];
    var channel' := Put(channel, name, info.(members := info.members + [extra]));
    var userChannels' := userChannels[username := Listed(userChannels, username) + [name]];
    forall c | c in channel'.entries
      ensures c in Listed(userChannels', channel'.entries[c].creator)
    {
      assert c in Listed(userChannels, channel.entries[c].creator);
    }
  }

  class ChannelManager {
    var channel: Dict<ChannelName, ChannelInfo>
    var userChannels: map<Username, seq<ChannelName>>

    /** Each channel's member list starts with its creator, and each channel is
        among its creator's channels. */
    ghost predicate Valid()
      reads this
    {
      Registry(channel, userChannels)
    }

    constructor ()
      ensures Valid()
      ensures channel == EmptyDict() && userChannels == map[]
    {
      channel := EmptyDict();
      userChannels := map[];
    }

    /** `create_channel`: refuse a taken name; otherwise a channel whose only
        member is its creator, recorded among the creator's channels. */
    method CreateChannel(channelName: ChannelName, creator: Username, now: nat) returns (ok: bool)
      requires Valid()
      modifies this
      ensures Valid()
      ensures ok <==> channelName !in old(channel.entries)
      ensures !ok ==> channel == old(channel) && userChannels == old(userChannels)
      ensures ok ==> channel == Put(old(channel), channelName, ChannelInfo(creator, [creator], now))
      ensures ok ==> userChannels == old(userChannels)[creator := Listed(old(userChannels), creator) + [channelName]]
    {
      if channelName in channel.entries {
        return false;
      }
      CreateKeepsRegistry(channel, userChannels, channelName, creator, now);
      channel := Put(channel, channelName, ChannelInfo(creator, [creator], now));
      if creator !in userChannels {
        userChannels := userChannels[creator := []];
      }
      userChannels := userChannels[creator := userChannels[creator] + [channelName]];
      assert userChannels == old(userChannels)[creator := Listed(old(userChannels), creator) + [channelName]];
      return true;
    }

    /** `list_all_channels`: one summary per channel, in creation order. */
    method ListAllChannels() returns (channels: seq<ChannelSummary>)
      requires Valid()
      ensures |channels| == |channel.keys|
      ensures forall i :: 0 <= i < |channels| ==>
        channels[i] == Summarize(channel.keys[i], channel.entries[channel.keys[i]])
      ensures forall i :: 0 <= i < |channels| ==> channels[i].membersCount >= 1
      ensures forall c :: c in channel.entries <==> exists i :: 0 <= i < |channels| && channels[i].name == c
      ensures forall i, j :: 0 <= i < j < |channels| ==> channels[i].name != channels[j].name
    {
      var names := channel.keys;
      channels := [];
      var i := 0;
      while i < |names|
        invariant 0 <= i <= |names|
        invariant |channels| == i
        invariant forall j :: 0 <= j < i ==> channels[j] == Summarize(names[j], channel.entries[names[j]])
      {
        var channelName := names[i];
        var info := channel.entries[channelName];
        channels := channels + [ChannelSummary(channelName, info.creator, |info.members|, info.createdAt)];
        i := i + 1;
      }
      forall c | c in channel.entries
        ensures exists i :: 0 <= i < |channels| && channels[i].name == c
      {
        var i :| 0 <= i < |names| && names[i] == c;
        assert channels[i].name == c;
      }
    }

    /** `join_channel` as written: refuse an unknown channel; a user already in
        `members` changes nothing; otherwise the channel's name is appended to
        `members` and to the user's channels. Either known-channel case returns true. */
    method JoinChannel(channelName: ChannelName, username: Username) returns (ok: bool)
      requires Valid()
      modifies this
      ensures Valid()
      ensures ok <==> channelName in old(channel.entries)
      ensures !ok ==> channel == old(channel) && userChannels == old(userChannels)
      ensures ok && username in old(channel.entries[channelName].members) ==>
        channel == old(channel) && userChannels == old(userChannels)
      ensures ok && username !in old(channel.entries[channelName].members) ==>
        var info := old(channel.entries[channelName]);
        && channel == Put(old(channel), channelName, info.(members := info.members + [channelName]))
        && userChannels == old(userChannels)[username := Listed(old(userChannels), username) + [channelName]]
    {
      if channelName !in channel.entries {
        return false;
      }
      var info := channel.entries[channelName];
      if username !in info.members {
        JoinKeepsRegistry(channel, userChannels, channelName, username, channelName);
        channel := Put(channel, channelName, info.(members := JoinedMembers(info.members, channelName, username)));
        var joined := if username in userChannels then userChannels[username] else [];
        userChannels := userChannels[username := joined + [channelName]];
      }
      return true;
    }

    /** `get_channel_members`: the member list of a known channel, which starts
        with its creator; empty for an unknown one. */
    function GetChannelMembers(channelName: ChannelName): (members: seq<string>)
      reads this
      requires Valid()
      ensures channelName !in channel.entries ==> members == []
      ensures channelName in channel.entries ==>
        members == channel.entries[channelName].members && members[0] == channel.entries[channelName].creator
    {
      if channelName !in channel.entries then [] else channel.entries[channelName].members
    }
  }
}
