/** The running service: its handlers, drains and reaper over one database, one limiter and one stream. */
module Deployment {
  import opened Common
  import opened RateLimiter
  import opened Store
  import opened Runtime
  import Conversation
  import opened Service
  import OutboundHandler
  import Inbound
  import DeliveryStatus
  import OutboxDrain
  import EventDrain

  class Process {
    const config: Config
    const database: Database
    const limiter: Limiter
    const stream: EventDrain.Stream

    constructor (config: Config)
      ensures Now() == World(EMPTY, LimiterState(map[], false, None), [])
      ensures fresh(database) && fresh(limiter) && fresh(limiter.redis) && fresh(stream)
    {
      this.config := config;
      database := new Database();
      var redis := new Redis();
      limiter := new Limiter(redis);
      stream := new EventDrain.Stream();
    }

    ghost function Now(): World
      reads database, limiter, limiter.redis, stream
    {
      World(database.store, limiter.State(), stream.log)
    }

    /** The work behind the status webhooks: apply the report, and commit unless its audit raised. */
    method Report(provider: Conversation.Provider, id: string, report: DeliveryStatus.Report, created: Instant,
                  audited: bool)
      modifies database
      ensures database.store
           == DeliveryStatus.CommitReport(old(database.store), provider, id, report, created, audited)
    {
      var session := new Session(database);
      var reply := DeliveryStatus.ApplyStatus(session, provider, id, report, created, audited);
      session.Close(reply.ServerError?);
    }

    /** Each step of a run is what the handler, drain or reaper does that stands behind it. */
    method Perform(step: Step)
      requires Possible(config, Now(), step)
      modifies database, limiter, limiter.redis, stream
      ensures Now() == Apply(config, old(Now()), step)
    {
      match step {
        case Post(req, env) =>
          var response := OutboundHandler.PostOutbound(database, limiter, config.settings, req, env);
        case Webhook(list, created, until) =>
          var reply := Inbound.MetaWebhook(database, list, created);
        case StatusReport(provider, id, report, created, audited) =>
          Report(provider, id, report, created, audited);
        case MetaBatch(provider, items, created, until) =>
          var reply := DeliveryStatus.MetaStatus(database, provider, items, created);
        case DispatchDrain(now, batch, outcomes, until, commits) =>
          var worker := new OutboxDrain.Worker(database, config.dispatchBatch);
          worker.DrainOnce(now, batch, outcomes, commits);
        case PublishDrain(now, batch, outcomes, until, commits) =>
          var worker := new EventDrain.Worker(database, stream, config.publishBatch);
          worker.DrainOnce(batch, outcomes, commits);
        case Reap(now) =>
          OutboundHandler.ReapExpired(database, now);
      }
    }

    /** A whole run, one step after the other. */
    method Serve(steps: seq<Step>)
      requires AllPossible(config, Now(), steps)
      modifies database, limiter, limiter.redis, stream
      ensures Now() == At(config, old(Now()), steps, |steps|)
    {
      hide Apply, Possible;
      ghost var start := Now();
      for n := 0 to |steps|
        invariant Now() == At(config, start, steps, n)
      {
        Perform(steps[n]);
      }
    }
  }
}
