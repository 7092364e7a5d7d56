/** The bridge's view of external commands: the thread search that decides whether a reply is
    already published, and the buffer that bounds what a command may print. */
module BridgeCommands {
  import opened Common
  import opened BridgeRecord
  import opened BridgeIntake

  const MAX_REPLY_BYTES := 16384

  /** Tags that name `parent` as root or reply target, with the marker in the fourth place. */
  function CountParents(tags: seq<seq<string>>, parent: string): nat {
    if tags == [] then 0
    else
      var last := tags[|tags| - 1];
      CountParents(tags[..|tags| - 1], parent) +
      (if 4 <= |last| <= 8 && last[0] == "e" && last[1] == parent && (last[3] == "root" || last[3] == "reply") then 1 else 0)
  }

  function CountChannel(tags: seq<seq<string>>, channel: string): nat {
    if tags == [] then 0
    else
      var last := tags[|tags| - 1];
      CountChannel(tags[..|tags| - 1], channel) +
      (if 2 <= |last| <= 8 && last[0] == "h" && last[1] == channel then 1 else 0)
  }

  /** A message of the bridge's own identity that is exactly this reply in this thread. */
  predicate IsReply(m: Message, agentKey: string, channel: string, parent: string, content: string) {
    && IsHex64(m.id) && m.author == agentKey && m.content == content && m.kind == 9 && |m.content| <= MAX_REPLY_BYTES
    && CountChannel(m.tags, channel) == 1 && CountParents(m.tags, parent) >= 1
  }

  /** `findExistingReply`, on the verified thread the relay returned: the first exact reply, and
      an answer of none only when there is none. */
  method FindExistingReply(events: seq<Message>, agentKey: string, channel: string, parent: string, content: string)
    returns (found: Option<string>)
    ensures found.Some? ==> IsHex64(found.value) && exists i ::
              && 0 <= i < |events| && events[i].id == found.value && IsReply(events[i], agentKey, channel, parent, content)
              && forall j :: 0 <= j < i ==> !IsReply(events[j], agentKey, channel, parent, content)
    ensures found.None? ==> forall i :: 0 <= i < |events| ==> !IsReply(events[i], agentKey, channel, parent, content)
  {
    for n := 0 to |events|
      invariant forall i :: 0 <= i < n ==> !IsReply(events[i], agentKey, channel, parent, content)
    {
      var m := events[n];
      if !IsHex64(m.id) || m.author != agentKey || m.content != content || m.kind != 9 || |m.content| > MAX_REPLY_BYTES {
        continue;
      }
      var hCount, parentCount := CountMarkers(m.tags, channel, parent);
      if hCount == 1 && parentCount >= 1 {
        return Some(m.id);
      }
    }
    return None;
  }

  method CountMarkers(tags: seq<seq<string>>, channel: string, parent: string) returns (hCount: nat, parentCount: nat)
    ensures hCount == CountChannel(tags, channel) && parentCount == CountParents(tags, parent)
  {
    hCount, parentCount := 0, 0;
    for n := 0 to |tags|
      invariant hCount == CountChannel(tags[..n], channel) && parentCount == CountParents(tags[..n], parent)
    {
      var tag := tags[n];
      assert tags[..n + 1][..n] == tags[..n];
      if |tag| < 2 || |tag| > 8 {
        continue;
      }
      if tag[0] == "h" && tag[1] == channel {
        hCount := hCount + 1;
      }
      if |tag| >= 4 && tag[0] == "e" && tag[1] == parent && (tag[3] == "root" || tag[3] == "reply") {
        parentCount := parentCount + 1;
      }
    }
    assert tags[..|tags|] == tags;
  }

  /** `boundedBuffer`: after any writes it holds the first `maximum` bytes written, and says so
      exactly when there were more. */
  class BoundedBuffer {
    const maximum: nat
    var content: seq<int>
    var exceeded: bool
    ghost var written: seq<int>

    ghost predicate Valid()
      reads this
    {
      && content == (if |written| <= maximum then written else written[..maximum])
      && (exceeded <==> |written| > maximum)
    }

    constructor (maximum: nat)
      ensures Valid() && this.maximum == maximum && written == []
    {
      this.maximum := maximum;
      content, exceeded, written := [], false, [];
    }

    method Write(bytes: seq<int>) returns (n: nat)
      requires Valid()
      modifies this
      ensures Valid() && written == old(written) + bytes && n == |bytes|
    {
      n := |bytes|;
      var remaining := maximum - |content|;
      if remaining > 0 {
        if |bytes| > remaining {
          content := content + bytes[..remaining];
        } else {
          content := content + bytes;
        }
      }
      if |bytes| > remaining {
        exceeded := true;
      }
      written := written + bytes;
    }
  }
}
