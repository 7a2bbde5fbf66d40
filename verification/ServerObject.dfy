/**
 * The server as the object that packages/core/src/server/rpc-server.ts makes it: fields assigned in place, and one
 * method for each piece of code that runs to completion. The contracts name the functions of module Server.
 */
module ServerObject {
  import opened Common
  import opened Messages
  import opened Codec
  import opened Server

  class RpcServer {
    var server: bool
    var sockets: set<nat>
    var activeRequests: int
    var drainResolvers: seq<Closure>
    var state: ServerState

    // The runtime's side: suspended handlers and closes, promises, written messages and the clock.
    var requests: seq<AcceptedRequest>
    var handlers: seq<Handler>
    var writes: seq<SocketWrite>
    var destroyed: set<nat>
    var waiters: seq<Waiter>
    var closes: seq<CloseCall>
    var clock: int

    ghost function WorkView(): Work
      reads this
    {
      Work(activeRequests, requests, handlers, writes, destroyed)
    }

    ghost function ShutdownView(): Shutdown
      reads this
    {
      Shutdown(state, server, drainResolvers, waiters, closes)
    }

    ghost function View(): Srv
      reads this
    {
      Srv(WorkView(), ShutdownView(), sockets, clock)
    }

    constructor (clock: int)
      ensures View() == InitialServer(clock)
    {
      server, sockets, activeRequests, drainResolvers, state := false, {}, 0, [], Idle;
      requests, handlers, writes, destroyed, waiters, closes := [], [], [], {}, [], [];
      this.clock := clock;
    }

    /** `listen` up to its await. */
    method ListenStarts()
      modifies this`server
      ensures server
    {
      server := true;
    }

    /** `listen` after its await: the state is set whatever it was. */
    method ListenDone()
      modifies this`state
      ensures state == Listening
    {
      state := Listening;
    }

    // ----- the data handler -----

    /** A chunk arrives on a socket: the handler decodes it and runs to its first await. */
    method DataReceived(s: nat, codec: RpcCodec, chunk: Bytes)
      requires codec.Valid()
      modifies codec.queue, this`activeRequests, this`requests, this`handlers, this`writes, this`destroyed
      ensures codec.Valid()
      ensures match Drain(codec.Config(), old(codec.queue.Contents()) + chunk)
              case Returned(messages, _) =>
                WorkView() == StartHandler(codec.Config(), state == Draining, clock, old(WorkView()), s, messages)
              case Threw(_, _) => WorkView() == old(WorkView()).(destroyed := old(destroyed) + {s})
    {
      var pushed := codec.Push(chunk);
      if pushed.Failure? {
        destroyed := destroyed + {s};
        return;
      }
      handlers := handlers + [Handler(s, pushed.value, Ended)];
      RunLoop(|handlers| - 1, codec);
    }

    /** The message loop, up to the next await. */
    method RunLoop(h: nat, codec: RpcCodec)
      requires h < |handlers|
      modifies this`activeRequests, this`requests, this`handlers, this`writes, this`destroyed
      ensures WorkView() == Proceed(codec.Config(), state == Draining, clock, old(WorkView()), h)
    {
      while handlers[h].rest != []
        invariant h < |handlers|
        invariant Proceed(codec.Config(), state == Draining, clock, WorkView(), h)
                  == Proceed(codec.Config(), state == Draining, clock, old(WorkView()), h)
        decreases |handlers[h].rest|
      {
        var message := handlers[h].rest[0];
        handlers := handlers[h := handlers[h].(rest := handlers[h].rest[1..])];
        if message.Request? {
          if state == Draining {
            RefuseRequest(h, codec, message);
          } else {
            AcceptRequest(h, message);
          }
          return;
        }
        if message.Ping? {
          var pong := Pong(message.id, clock);
          var packet := codec.Encode(pong);
          if packet.Failure? {
            CatchError(h);
            return;
          }
          writes := writes + [SocketWrite(handlers[h].socket, pong, packet.value)];
        }
      }
      handlers := handlers[h := handlers[h].(rest := [], phase := Ended)];
    }

    method RefuseRequest(h: nat, codec: RpcCodec, message: RpcMessage)
      requires h < |handlers| && message.Request?
      modifies this`handlers, this`writes, this`destroyed
      ensures WorkView() == Refuse(codec.Config(), old(WorkView()), h, message)
    {
      var response := Response(message.id, false, None, Some(ErrorInfo("SERVER_DRAINING", "RPC server is draining")),
                               message.metadata);
      var packet := codec.Encode(response);
      if packet.Failure? {
        CatchError(h);
        return;
      }
      writes := writes + [SocketWrite(handlers[h].socket, response, packet.value)];
      handlers := handlers[h := handlers[h].(phase := AwaitingRejection)];
    }

    method AcceptRequest(h: nat, message: RpcMessage)
      requires h < |handlers| && message.Request?
      modifies this`activeRequests, this`requests, this`handlers
      ensures WorkView() == Accept(old(WorkView()), h, message)
    {
      activeRequests := activeRequests + 1;
      handlers := handlers[h := handlers[h].(phase := AwaitingInvoke(|requests|))];
      requests := requests + [AcceptedRequest(h, message, Invoking, None)];
    }

    /** The outer `catch`. */
    method CatchError(h: nat)
      requires h < |handlers|
      modifies this`handlers, this`destroyed
      ensures WorkView() == FailHandler(old(WorkView()), h)
    {
      destroyed := destroyed + {handlers[h].socket};
      handlers := handlers[h := handlers[h].(rest := [], phase := Ended)];
    }

    /** After `await invoke`. */
    method MethodSettles(h: nat, codec: RpcCodec, outcome: MethodOutcome)
      requires CanReturn(WorkView(), h)
      modifies this`activeRequests, this`requests, this`handlers, this`writes, this`destroyed, this`drainResolvers, this`waiters
      ensures WorkView() == InvokeReturns(codec.Config(), old(WorkView()), h, outcome)
      ensures var response := InvokeResponse(old(requests)[old(handlers)[h].phase.request].request, outcome);
              writes == match Encoded(codec.Config(), response)
                        case Success(packet) => old(writes) + [SocketWrite(old(handlers)[h].socket, response, packet)]
                        case Failure(_) => old(writes)
      ensures ShutdownView() == if activeRequests == old(activeRequests) then old(ShutdownView())
                                else Server.ResolveDrainIfIdle(old(ShutdownView()), activeRequests)
    {
      var r := handlers[h].phase.request;
      var response := InvokeResponse(requests[r].request, outcome);
      requests := requests[r := requests[r].(outcome := Some(outcome))];
      var packet := codec.Encode(response);
      if packet.Failure? {
        Finally(r, EncodeFailed);
        CatchError(h);
        return;
      }
      writes := writes + [SocketWrite(handlers[h].socket, response, packet.value)];
      requests := requests[r := requests[r].(status := Writing)];
      handlers := handlers[h := handlers[h].(phase := AwaitingWrite(r))];
    }

    /** The `finally` of one request. */
    method Finally(r: nat, status: RequestStatus)
      requires r < |requests|
      modifies this`activeRequests, this`requests, this`drainResolvers, this`waiters
      ensures activeRequests == old(activeRequests) - 1
      ensures requests == old(requests)[r := old(requests)[r].(status := status)]
      ensures ShutdownView() == Server.ResolveDrainIfIdle(old(ShutdownView()), activeRequests)
    {
      requests := requests[r := requests[r].(status := status)];
      activeRequests := activeRequests - 1;
      ResolveDrainIfIdle();
    }

    /** After `await writeSocket`: the request's own write, or the write of a refusal. */
    method WriteSettles(h: nat, codec: RpcCodec, ok: bool)
      requires CanEndWrite(WorkView(), h)
      modifies this`activeRequests, this`requests, this`handlers, this`writes, this`destroyed, this`drainResolvers, this`waiters
      ensures WorkView() == WriteEnds(codec.Config(), state == Draining, clock, old(WorkView()), h, ok)
      ensures ShutdownView() == if old(handlers)[h].phase.AwaitingRejection? then old(ShutdownView())
                                else Server.ResolveDrainIfIdle(old(ShutdownView()), old(activeRequests) - 1)
    {
      if handlers[h].phase.AwaitingWrite? {
        Finally(handlers[h].phase.request, if ok then Answered else WriteFailed);
      }
      if ok {
        handlers := handlers[h := handlers[h].(phase := Ended)];
        RunLoop(h, codec);
      } else {
        CatchError(h);
      }
    }

    // ----- draining -----

    method ResolveDrainIfIdle()
      modifies this`drainResolvers, this`waiters
      ensures ShutdownView() == Server.ResolveDrainIfIdle(old(ShutdownView()), activeRequests)
    {
      if activeRequests != 0 {
        return;
      }
      var resolvers := drainResolvers;
      drainResolvers := [];
      for i := 0 to |resolvers|
        invariant drainResolvers == []
        invariant CallResolvers(waiters, resolvers[i..]) == CallResolvers(old(waiters), resolvers)
      {
        var w := resolvers[i].waiter;
        assert resolvers[i..][1..] == resolvers[i + 1..];
        if w < |waiters| && waiters[w] == Waiting {
          waiters := waiters[w := ResolvedIdle];
        }
      }
    }

    /** `filter`: every stored function except `resolver`. */
    method RemoveDrainResolver(resolver: Closure)
      modifies this`drainResolvers
      ensures drainResolvers == Server.RemoveDrainResolver(old(drainResolvers), resolver)
    {
      var all, kept := drainResolvers, [];
      for i := 0 to |all|
        invariant kept + Server.RemoveDrainResolver(all[i..], resolver) == Server.RemoveDrainResolver(all, resolver)
      {
        assert all[i..][1..] == all[i + 1..];
        ghost var later := Server.RemoveDrainResolver(all[i + 1..], resolver);
        assert kept + ([all[i]] + later) == kept + [all[i]] + later && kept + ([] + later) == kept + later;
        if all[i] != resolver {
          kept := kept + [all[i]];
        }
      }
      drainResolvers := kept;
    }

    method DrainTimerFires(w: nat)
      requires w < |waiters| && waiters[w] == Waiting
      modifies this`drainResolvers, this`waiters
      ensures ShutdownView() == FireDrainTimer(old(ShutdownView()), w)
    {
      RemoveDrainResolver(PromiseResolve(w));
      waiters := waiters[w := TimedOut];
    }

    method CloseConnections()
      modifies this`sockets, this`destroyed
      ensures sockets == {} && destroyed == old(destroyed) + old(sockets)
    {
      var remaining := sockets;
      while remaining != {}
        invariant remaining <= sockets && destroyed == old(destroyed) + (sockets - remaining)
        invariant sockets == old(sockets)
        decreases remaining
      {
        var s :| s in remaining;
        destroyed := destroyed + {s};
        remaining := remaining - {s};
      }
      sockets := {};
    }

    /** `close` up to its first await; without a server it does nothing. */
    method Close(graceful: bool)
      modifies this
      ensures View() == if old(server) then
                          var closing := old(View()).(drain := BeginClose(old(ShutdownView()), graceful, old(activeRequests)));
                          if graceful then closing else Server.CloseConnections(closing)
                        else old(View())
    {
      if !server {
        return;
      }
      server := false;
      if graceful {
        state := Draining;
        var waiter := WaitForActiveRequests();
        closes := closes + [CloseCall(true, waiter, AwaitingDrain)];
        return;
      }
      state := Closed;
      CloseConnections();
      closes := closes + [CloseCall(false, None, AwaitingServer)];
    }

    /** A promise that is resolved already, or one for the drain to resolve. */
    method WaitForActiveRequests() returns (waiter: Option<nat>)
      modifies this`waiters, this`drainResolvers
      ensures activeRequests == 0 ==> waiter == None && unchanged(this)
      ensures activeRequests != 0 ==>
                && waiter == Some(|old(waiters)|)
                && waiters == old(waiters) + [Waiting]
                && drainResolvers == old(drainResolvers) + [Resolver(|old(waiters)|)]
    {
      if activeRequests == 0 {
        return None;
      }
      waiter := Some(|waiters|);
      drainResolvers := drainResolvers + [Resolver(|waiters|)];
      waiters := waiters + [Waiting];
    }

    /** A graceful `close` after the drain. */
    method CloseResumes(i: nat)
      requires CanCloseConnections(ShutdownView(), i)
      modifies this`sockets, this`destroyed, this`closes
      ensures sockets == {} && destroyed == old(destroyed) + old(sockets)
      ensures closes == old(closes)[i := old(closes)[i].(phase := AwaitingServer)]
    {
      CloseConnections();
      closes := closes[i := closes[i].(phase := AwaitingServer)];
    }

    /** `close` after the listening server has closed. */
    method ServerClosed(i: nat)
      requires i < |closes| && closes[i].phase == AwaitingServer
      modifies this`state, this`closes
      ensures state == if old(closes)[i].graceful then Closed else old(state)
      ensures closes == old(closes)[i := old(closes)[i].(phase := Finished)]
    {
      if closes[i].graceful {
        state := Closed;
      }
      closes := closes[i := closes[i].(phase := Finished)];
    }
  }
}
