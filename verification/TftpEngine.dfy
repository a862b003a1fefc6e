/** tftp.c: the static tftp_state record and the functions that update it in place. Each method
    returns the callbacks it made and the datagrams it sent, in order. */
module TftpEngine {
  import opened Bytes
  import opened Request
  import opened Tftp

  class TftpState {
    var open: bool
    var writing: bool
    var blknum: u16
    var last: Option<Block>
    var peer: Peer
    var timer: int
    var lastPacket: int
    var retries: nat
    var server: bool
    var client: bool
    var obtained: nat  // packet buffers allocated or taken over
    var released: nat  // packet buffers freed

    function State(): Engine
      reads this
    {
      Engine(open, writing, blknum, last, peer, timer, lastPacket, retries, server, client)
    }

    /** The endpoint holds last_data, if there is one, and extra further buffers. */
    predicate Owns(extra: nat)
      reads this
    {
      obtained == released + (if last.Some? then 1 else 0) + extra
    }

    /** tftp_init_common */
    constructor (server: bool, client: bool)
      ensures State() == Idle(server, client) && Owns(0)
    {
      open, writing, blknum, last, peer := false, false, 0, None, ANYONE;
      timer, lastPacket, retries := 0, 0, 0;
      this.server, this.client := server, client;
      obtained, released := 0, 0;
    }

    /** Allocate a datagram, hand it to udp_sendto and free it again. */
    method SendPacket(to: Peer, d: Datagram, env: Env) returns (effects: seq<Effect>)
      modifies this`obtained, this`released
      ensures effects == Send(to, d, env)
      ensures obtained - released == old(obtained - released)
    {
      effects := [];
      if env.sendOk {
        obtained := obtained + 1;
        effects := [Sent(to, d)];
        released := released + 1;
      }
    }

    method CloseHandle(ghost extra: nat) returns (effects: seq<Effect>)
      requires Owns(extra)
      modifies this
      ensures Owns(extra) && Outcome(State(), effects) == Tftp.CloseHandle(old(State()))
    {
      effects := [];
      peer := ANYONE;
      if last.Some? {
        released := released + 1;
        last := None;
      }
      if open {
        effects := [Closed];
        open := false;
      }
    }

    method SendData(to: Peer, env: Env, ghost extra: nat) returns (effects: seq<Effect>)
      requires Owns(extra)
      modifies this
      ensures Owns(extra) && Outcome(State(), effects) == Tftp.SendData(old(State()), to, env)
    {
      if last.Some? {
        released := released + 1;
      }
      if !env.bufferOk {
        last := None;
        return [];
      }
      obtained := obtained + 1;
      last := Some(Block(blknum, []));
      if env.read.None? {
        var refusal := SendPacket(to, Error(ACCESS_VIOLATION), env);
        var closing := CloseHandle(extra);
        return [FetchFailed] + refusal + closing;
      }
      last := Some(Block(blknum, env.read.value));
      var sent := SendPacket(to, Data(last.value), env);
      effects := [Fetched(env.read.value)] + sent;
    }

    /** tftp_recv. The received buffer belongs to the endpoint from here on. */
    method Recv(from: Peer, d: Datagram, env: Env, cfg: Config) returns (effects: seq<Effect>)
      requires Owns(0) && cfg.Valid() && WellSized(d)
      modifies this
      ensures Owns(0) && Outcome(State(), effects) == Tftp.Recv(old(State()), from, d, env, cfg)
    {
      hide Tftp.RecvRequest, Tftp.RecvData, Tftp.RecvAck;
      obtained := obtained + 1;
      if Stranger(State(), from) {
        effects := SendPacket(from, Error(ACCESS_VIOLATION), env);
        released := released + 1;
        return;
      }
      lastPacket := timer;
      retries := 0;
      match d {
        case Request(write, raw) => effects := RecvRequest(from, write, raw, env, cfg);
        case Data(block) => effects := RecvData(from, block, env);
        case Ack(number) => effects := RecvAck(from, number, env);
        case Error(code) => effects := RecvError(code);
        case Unknown => effects := SendPacket(from, Error(ILLEGAL_OPERATION), env);
      }
      released := released + 1;
    }

    method RecvError(code: u16) returns (effects: seq<Effect>)
      requires Owns(1)
      modifies this
      ensures Owns(1) && Outcome(State(), effects) == Tftp.RecvError(old(State()), code)
    {
      effects := [];
      if open {
        var closing := CloseHandle(1);
        effects := [Failed(Unconverted(code))] + closing;
      }
    }

    method RecvRequest(from: Peer, write: bool, raw: seq<byte>, env: Env, cfg: Config) returns (effects: seq<Effect>)
      requires Owns(1) && cfg.Valid() && 2 <= |raw| < 0xffff
      modifies this
      ensures Owns(1) && Outcome(State(), effects) == Tftp.RecvRequest(old(State()), from, write, raw, env, cfg)
    {
      hide Parse, Tftp.SendData;
      if open || !server {
        effects := SendPacket(from, Error(ACCESS_VIOLATION), env);
        return;
      }
      var names := Parse(raw, cfg.limits);
      if !names.Parsed? {
        effects := SendPacket(from, Error(ACCESS_VIOLATION), env);
        return;
      }
      open := env.openOk;
      blknum := 1;
      if !open {
        effects := SendPacket(from, Error(FILE_NOT_FOUND), env);
        return;
      }
      peer := from;
      writing := write;
      if write {
        effects := SendPacket(from, Ack(0), env);
      } else {
        effects := SendData(from, env, 1);
      }
      effects := [Opened(names.filename, names.mode)] + effects;
    }

    method RecvData(from: Peer, block: Block, env: Env) returns (effects: seq<Effect>)
      requires Owns(1)
      modifies this
      ensures Owns(1) && Outcome(State(), effects) == Tftp.RecvData(old(State()), from, block, env)
    {
      if !open || !writing {
        effects := SendPacket(from, Error(ACCESS_VIOLATION), env);
      } else if block.number == blknum {
        effects := Accept(from, block, env);
        if |block.payload| < BLOCK_SIZE {
          var closing := CloseHandle(1);
          effects := effects + closing;
        } else {
          blknum := (blknum + 1) % 0x1_0000;
        }
      } else if (block.number + 1) % 0x1_0000 == blknum {
        effects := SendPacket(from, Ack(block.number), env);
      } else {
        effects := SendPacket(from, Error(UNKNOWN_TRANSFER), env);
      }
    }

    /** The expected block goes to ctx->write. */
    method Accept(from: Peer, block: Block, env: Env) returns (effects: seq<Effect>)
      requires Owns(1)
      modifies this
      ensures Owns(1) && Outcome(State(), effects) == Tftp.Accept(old(State()), from, block, env)
    {
      if !env.writeOk {
        var refusal := SendPacket(from, Error(ACCESS_VIOLATION), env);
        var closing := CloseHandle(1);
        effects := [Wrote(block.payload, false)] + refusal + closing;
      } else {
        effects := SendPacket(from, Ack(block.number), env);
        effects := [Wrote(block.payload, true)] + effects;
      }
    }

    method RecvAck(from: Peer, number: u16, env: Env) returns (effects: seq<Effect>)
      requires Owns(1)
      modifies this
      ensures Owns(1) && Outcome(State(), effects) == Tftp.RecvAck(old(State()), from, number, env)
    {
      if !open || writing {
        effects := SendPacket(from, Error(ACCESS_VIOLATION), env);
        return;
      }
      if number != blknum {
        effects := SendPacket(from, Error(UNKNOWN_TRANSFER), env);
        return;
      }
      var lastpkt := last.Some? && |last.value.payload| != BLOCK_SIZE;
      if !lastpkt {
        blknum := (blknum + 1) % 0x1_0000;
        effects := SendData(from, env, 1);
      } else {
        effects := CloseHandle(1);
      }
    }

    /** tftp_tmr */
    method Tick(env: Env, cfg: Config) returns (effects: seq<Effect>)
      requires Owns(0)
      modifies this
      ensures Owns(0) && Outcome(State(), effects) == Tftp.Tick(old(State()), env, cfg)
    {
      effects := [];
      timer := timer + 1;
      if !open {
        return;
      }
      if timer - lastPacket > cfg.timeoutTicks {
        if last.Some? && retries < cfg.maxRetries {
          effects := SendPacket(peer, Data(last.value), env);
          retries := retries + 1;
        } else {
          effects := CloseHandle(0);
        }
      }
    }

    /** tftp_get */
    method Get(to: Peer, filename: seq<byte>, mode: seq<byte>, env: Env) returns (effects: seq<Effect>)
      requires Owns(0)
      modifies this
      ensures Owns(0) && Outcome(State(), effects) == Tftp.Get(old(State()), to, filename, mode, env)
    {
      if !client {
        return [];
      }
      open := true;
      blknum := 1;
      writing := true;
      effects := SendPacket(to, Request(false, RequestOf(1, filename, mode)), env);
    }

    /** tftp_put */
    method PutFile(to: Peer, filename: seq<byte>, mode: seq<byte>, env: Env) returns (effects: seq<Effect>)
      requires Owns(0)
      modifies this
      ensures Owns(0) && Outcome(State(), effects) == Tftp.PutFile(old(State()), to, filename, mode, env)
    {
      if !client {
        return [];
      }
      open := true;
      blknum := 1;
      writing := false;
      effects := SendPacket(to, Request(true, RequestOf(2, filename, mode)), env);
    }

    /** One event after another: in every run the endpoint has given back every buffer it was given
        but the one it holds, and it holds none without a session. */
    method Play(events: seq<Event>, cfg: Config) returns (effects: seq<Effect>)
      requires Owns(0) && cfg.Valid() && Clean(State()) && AllowedRun(State(), events, cfg)
      modifies this
      ensures Owns(0) && Outcome(State(), effects) == Run(old(State()), events, cfg)
      ensures Clean(State()) && (!open ==> obtained == released)
    {
      hide Tftp.Recv, Tftp.Tick, Tftp.Get;
      SessionsBalance(State(), events, cfg);
      effects := [];
      var i := 0;
      while i < |events|
        invariant 0 <= i <= |events| && Owns(0)
        invariant AllowedRun(State(), events[i..], cfg)
        invariant Run(State(), events[i..], cfg).After(effects) == Run(old(State()), events, cfg)
      {
        var more := [];
        match events[i] {
          case Arrive(from, d, env) => more := Recv(from, d, env, cfg);
          case Timer(env) => more := Tick(env, cfg);
          case StartGet(to, filename, mode, env) => more := Get(to, filename, mode, env);
        }
        effects := effects + more;
        i := i + 1;
      }
    }
  }
}
