/** The receiving side of a UDP channel: `UdpChannel` in UdpChannel.cpp, and the loop that drains it. */
module UdpChannels {
  import opened Wrappers
  import opened UdpStacks
  import opened Resequencing

  class UdpChannel {
    var udpCounters: map<string, nat>
    var stacks: map<string, UdpStack>
    /** The sender whose stack must be handed up next, or the empty string. */
    var stackedIp: string
    const maxStack: nat
    /** The number of the next datagram sent. */
    var counter: nat

    ghost function Objects(): set<object>
      reads this
    {
      set ip | ip in stacks :: stacks[ip]
    }

    ghost predicate Valid()
      reads this, Objects()
    {
      && stacks.Keys == udpCounters.Keys
      && "" !in stacks
      && (forall ip :: ip in stacks ==> stacks[ip].owner == ip && stacks[ip].counter < SLOTS && udpCounters[ip] < SLOTS)
      && (stackedIp != "" ==> stackedIp in stacks)
      && counter < SLOTS
    }

    /** What the channel keeps for a sender. A sender it does not know has an empty stack. */
    ghost function SourceOf(ip: string): (s: Source)
      requires Valid()
      reads this, Objects()
      ensures s.count < SLOTS && s.stack.counter < SLOTS
    {
      if ip in stacks then Source(udpCounters[ip], stacks[ip].View()) else Source(0, EmptyStack())
    }

    /** The counters of the stacks are right. */
    ghost predicate AllTidy()
      requires Valid()
      reads this, Objects()
    {
      forall ip :: ip in stacks ==> Tidy(SourceOf(ip))
    }

    constructor (maxStack: nat)
      ensures Valid() && AllTidy() && stacks == map[] && stackedIp == "" && this.maxStack == maxStack && counter == 0
    {
      udpCounters := map[];
      stacks := map[];
      stackedIp := "";
      this.maxStack := maxStack;
      counter := 0;
    }

    /** `handleStack` on one slot of one sender's stack. */
    method HandleSlot(ip: string, i: nat) returns (buf: Option<Payload>)
      requires Valid() && ip in stacks && i < SLOTS && stackedIp == ip
      modifies this`stackedIp, stacks[ip]
      ensures Valid()
      ensures var o := TakeSlot(old(SourceOf(ip)), i);
        SourceOf(ip) == o.source && buf == o.buf && stackedIp == if o.again then ip else ""
    {
      buf := stacks[ip].RemovePacket(i);
      if !HasNext(stacks[ip].View(), Next(i)) {
        stackedIp := "";
      }
    }

    /** `handleStack` for the stacked sender. */
    method HandleStacked() returns (buf: Option<Payload>)
      requires Valid() && stackedIp != "" && stackedIp in stacks
      modifies this`stackedIp, this`udpCounters, stacks[stackedIp]
      ensures Valid()
      ensures var ip := old(stackedIp);
        var o := ReceiveStacked(old(SourceOf(ip)));
        && SourceOf(ip) == o.source && buf == o.buf && stackedIp == (if o.again then ip else "")
        && udpCounters == old(udpCounters)[ip := o.source.count]
    {
      var ip := stackedIp;
      var count := udpCounters[ip];
      buf := HandleSlot(ip, count);
      if stackedIp != "" {
        udpCounters := udpCounters[ip := Next(count)];
      }
    }

    /** The sender of a datagram, with a new stack if it is new, and the number wanted from it. */
    method Locate(ip: string, nb: nat) returns (current: nat)
      requires Valid() && ip != "" && nb < SLOTS
      modifies this`udpCounters, this`stacks
      ensures Valid() && ip in stacks
      ensures ip !in old(stacks) ==> fresh(stacks[ip]) && stacks == old(stacks)[ip := stacks[ip]]
      ensures ip in old(stacks) ==> stacks == old(stacks)
      ensures current == Current(old(SourceOf(ip)), ip in old(stacks), nb)
      ensures SourceOf(ip) == Located(old(SourceOf(ip)), ip in old(stacks), nb)
      ensures udpCounters == old(udpCounters)[ip := SourceOf(ip).count]
    {
      if ip !in udpCounters {
        var stack := new UdpStack(ip);
        udpCounters := udpCounters[ip := nb];
        stacks := stacks[ip := stack];
        current := nb;
      } else {
        current := Next(udpCounters[ip]);
      }
    }

    /** The wanted packet is handed up if it is there. */
    method TakeCurrent(ip: string, current: nat) returns (buf: Option<Payload>)
      requires Valid() && ip in stacks && current < SLOTS
      modifies this`stackedIp, this`udpCounters, stacks[ip]
      ensures Valid()
      ensures var o := TryCurrent(old(SourceOf(ip)), current);
        && SourceOf(ip) == o.source && buf == o.buf && stackedIp == (if o.again then ip else "")
        && udpCounters == old(udpCounters)[ip := o.source.count]
    {
      buf := None;
      stackedIp := ip;
      if HasNext(stacks[ip].View(), current) {
        buf := HandleSlot(ip, current);
        if stackedIp == "" {
          udpCounters := udpCounters[ip := current];
        }
      } else {
        stackedIp := "";
      }
    }

    /** The skip loop of `receive`. It ends because the stack holds a packet with content. */
    method SkipMissing(ip: string, from: nat) returns (found: nat)
      requires Valid() && ip in stacks && from < SLOTS
      requires exists k :: 0 <= k < SLOTS && HasNext(stacks[ip].View(), k)
      ensures found == Skip(stacks[ip].View(), from, SLOTS - 1)
    {
      ghost var s := stacks[ip].View();
      SkipFinds(s, from);
      found := from;
      ghost var n: nat := SLOTS - 1;
      while !HasNext(stacks[ip].View(), found)
        invariant found < SLOTS
        invariant Skip(s, found, n) == Skip(s, from, SLOTS - 1)
        decreases n
      {
        found := Next(found);
        n := n - 1;
      }
    }

    /** When there are too many packets the missing ones are given up. */
    method CheckOverflow(ip: string, current: nat)
      requires Valid() && ip in stacks && current < SLOTS && stackedIp == ""
      requires Skippable(stacks[ip].View(), maxStack)
      modifies this`stackedIp, this`udpCounters
      ensures Valid()
      ensures var o := Overflow(Outcome(old(SourceOf(ip)), None, false), maxStack, current);
        && SourceOf(ip) == o.source && stackedIp == (if o.again then ip else "")
        && udpCounters == old(udpCounters)[ip := o.source.count]
    {
      if stacks[ip].counter > maxStack {
        var found := SkipMissing(ip, Next(current));
        udpCounters := udpCounters[ip := found];
        stackedIp := ip;
      }
    }

    /** The state after a datagram of `ip`: `source` for that sender, nothing new for the others. */
    twostate predicate Became(ip: string, source: Source)
      requires old(Valid()) && Valid()
      reads this, Objects()
    {
      && stacks.Keys == old(stacks).Keys + {ip}
      && SourceOf(ip) == source
      && (forall x :: x in old(stacks) ==> stacks[x] == old(stacks)[x])
      && (forall x :: x in old(stacks) && x != ip ==> SourceOf(x) == old(SourceOf(x)))
      && (ip !in old(stacks) ==> fresh(stacks[ip]))
    }

    /** `receive` once the sender is located: store, hand up, check for too many. */
    method Serve(ip: string, current: nat, nb: nat, data: Payload) returns (buf: Option<Payload>)
      requires Valid() && ip in stacks && current < SLOTS && nb < SLOTS
      requires Servable(SourceOf(ip), current, maxStack, nb, data)
      modifies this`stackedIp, this`udpCounters, stacks[ip]
      ensures Valid()
      ensures var o := Served(old(SourceOf(ip)), current, maxStack, nb, data);
        && SourceOf(ip) == o.source && buf == o.buf && stackedIp == (if o.again then ip else "")
        && udpCounters == old(udpCounters)[ip := o.source.count]
    {
      stacks[ip].AddPacket(nb, data);
      buf := TakeCurrent(ip, current);
      if stackedIp == "" {
        CheckOverflow(ip, current);
      }
    }

    /** `receive` of a new datagram. */
    method ReceiveDatagram(ip: string, nb: nat, data: Payload) returns (buf: Option<Payload>)
      requires Valid() && stackedIp == "" && ip != "" && nb < SLOTS
      requires Returns(SourceOf(ip), ip in stacks, maxStack, nb, data)
      modifies this`stackedIp, this`udpCounters, this`stacks, if ip in stacks then {stacks[ip]} else {}
      ensures Valid()
      ensures var o := ReceiveNew(old(SourceOf(ip)), ip in old(stacks), maxStack, nb, data);
        Became(ip, o.source) && buf == o.buf && stackedIp == if o.again then ip else ""
    {
      var current := Locate(ip, nb);
      assert forall x :: x in old(stacks) && x != ip ==> stacks[x] == old(stacks)[x] && stacks[x] != stacks[ip];
      buf := Serve(ip, current, nb, data);
    }

    /** The sender whose stack a call of `receive` changes: the stacked one, whoever sent the datagram. */
    ghost function Turn(ip: string): string
      reads this`stackedIp
    {
      if stackedIp != "" then stackedIp else ip
    }

    /** `receive`: while a sender is stacked its stack is served, and the datagram is not looked at. */
    method Receive(ip: string, nb: nat, data: Payload) returns (ret: int, buf: Option<Payload>)
      requires Valid() && ip != "" && nb < SLOTS
      requires stackedIp == "" ==> Returns(SourceOf(ip), ip in stacks, maxStack, nb, data)
      modifies this`stackedIp, this`udpCounters, this`stacks, if Turn(ip) in stacks then {stacks[Turn(ip)]} else {}
      ensures Valid()
      ensures ret == if stackedIp != "" then 1 else 0
      ensures var turn := if old(stackedIp) != "" then old(stackedIp) else ip;
        var o := if old(stackedIp) != "" then ReceiveStacked(old(SourceOf(turn)))
          else ReceiveNew(old(SourceOf(ip)), ip in old(stacks), maxStack, nb, data);
        Became(turn, o.source) && buf == o.buf && stackedIp == if o.again then turn else ""
    {
      if stackedIp != "" {
        buf := HandleStacked();
      } else {
        buf := ReceiveDatagram(ip, nb, data);
      }
      ret := if stackedIp != "" then 1 else 0;
    }

    /** `send`: the datagram carries the counter, which then advances modulo 256. */
    method Send(sent: bool) returns (nb: nat)
      requires Valid()
      modifies this`counter
      ensures Valid() && nb == old(counter)
      ensures counter == if sent then (old(counter) + 1) % SLOTS else old(counter)
    {
      nb := counter;
      if sent {
        NextIsModulo(counter);
        counter := Next(counter);
      }
    }
  }

  /** The calls of `receive` while the sender is stacked. */
  method DrainStacked(channel: UdpChannel, ip: string, nb: nat, data: Payload, first: seq<Payload>)
    returns (out: seq<Payload>)
    requires channel.Valid() && channel.stackedIp == ip
    requires ip != "" && ip in channel.stacks && nb < SLOTS
    modifies channel`stackedIp, channel`udpCounters, channel`stacks, channel.stacks[ip]
    ensures channel.Valid() && channel.stackedIp == ""
    ensures var drained := Drain(old(channel.SourceOf(ip)));
      out == first + drained.0 && channel.Became(ip, drained.1)
  {
    out := first;
    var ret := 1;
    ghost var s := channel.SourceOf(ip);
    ghost var total := out + Drain(s).0;
    ghost var final := Drain(s).1;
    while ret > 0
      invariant channel.Valid() && channel.Became(ip, s)
      invariant channel.stackedIp == if ret > 0 then ip else ""
      invariant ret == 0 || ret == 1
      invariant total == if ret > 0 then out + Drain(s).0 else out
      invariant final == if ret > 0 then Drain(s).1 else s
      decreases if ret > 0 then 1 + Calls(s) else 0
    {
      StackedDecreases(s);
      DrainCall(s, out);
      var buf;
      ret, buf := channel.Receive(ip, nb, data);
      out := out + Packet(buf);
      s := channel.SourceOf(ip);
    }
  }

  /** The loop of the caller: `receive` until it returns 0, handing up what is not empty. */
  method OnEvent(channel: UdpChannel, ip: string, nb: nat, data: Payload) returns (out: seq<Payload>)
    requires channel.Valid() && channel.AllTidy() && channel.stackedIp == "" && ip != "" && nb < SLOTS
    requires Returns(channel.SourceOf(ip), ip in channel.stacks, channel.maxStack, nb, data)
    modifies channel, channel.Objects()
    ensures channel.Valid() && channel.stackedIp == ""
    ensures var handled := Handle(old(channel.SourceOf(ip)), ip in old(channel.stacks), channel.maxStack, nb, data);
      out == handled.0 && channel.Became(ip, handled.1) && Tidy(handled.1)
  {
    ghost var s := channel.SourceOf(ip);
    ghost var known := ip in channel.stacks;
    EmptyCounted();
    HandleTidy(s, known, channel.maxStack, nb, data);
    HandleStep(s, known, channel.maxStack, nb, data);
    var ret, buf := channel.Receive(ip, nb, data);
    out := Packet(buf);
    if ret > 0 {
      out := DrainStacked(channel, ip, nb, data, out);
    }
  }

  lemma {:induction false} DrainCall(s: Source, out: seq<Payload>)
    requires s.count < SLOTS && s.stack.counter < SLOTS
    ensures var o := ReceiveStacked(s);
      && o.source.count < SLOTS && o.source.stack.counter < SLOTS
      && out + Drain(s).0 == (out + Packet(o.buf)) + (if o.again then Drain(o.source).0 else [])
      && Drain(s).1 == if o.again then Drain(o.source).1 else o.source
  {
    StackedDecreases(s);
  }
}
