/**
  The remote-forward part of one SSH session: registering and cancelling the server's listener, and
  the gate that decides on every channel the server opens.  The gate runs in the session's own task and
  sees the registration only through a shared port cell.
*/
module RemoteSession {
  import opened Wrappers
  import opened Domain

  const MAX_FORWARDED_CHANNELS: nat := 64
  const U16_MAX: nat := 0xFFFF
  const HOST_BYTES: nat := 255

  datatype ConnectError =
    | NoRemoteForward
    | InvalidBindAddress
    | InvalidRemotePort
    | SessionCancelled
    | RequestTimeout
    | RequestRefused

  /** What comes back for a global request. */
  datatype ServerAnswer = Granted(port: nat) | Refused | TimedOut | Aborted

  datatype GateVerdict = Accepted | Prohibited | ResourceShortage

  class PortCell {
    var value: nat
    constructor () ensures value == 0 { value := 0; }
  }

  class DirectSshSession {
    const binding: Option<Endpoint>        // the verifier's copy
    const enabled: PortCell
    var handle: bool
    var cancelled: bool
    var forwarded: Option<Endpoint>        // still to be registered
    var remoteActive: Option<(string, nat)>
    var queued: nat                        // accepted channels the worker has not taken yet

    /** The gate is never open without a registration, and then for exactly that address and port. */
    ghost predicate Valid()
      reads this, enabled
    {
      && (forwarded.Some? ==> binding == forwarded && remoteActive.None?)
      && (remoteActive.Some? ==>
            && binding.Some? && remoteActive.value.0 == binding.value.host && remoteActive.value.1 != 0
            && (binding.value.port != 0 ==> remoteActive.value.1 == binding.value.port))
      && (enabled.value != 0 ==> remoteActive.Some? && enabled.value == remoteActive.value.1)
      && queued <= MAX_FORWARDED_CHANNELS
    }

    /** The address and port at which a channel would be accepted now. */
    ghost function Gate(): Option<(string, nat)>
      reads this, enabled
    {
      if binding.Some? && enabled.value != 0 then Some((binding.value.host, enabled.value)) else None
    }

    constructor (remote: Option<Endpoint>)
      ensures Valid() && fresh(enabled) && handle && !cancelled && binding == remote == forwarded
      ensures remoteActive.None? && queued == 0 && Gate().None?
    {
      binding := remote;
      forwarded := remote;
      enabled := new PortCell();
      handle := true;
      cancelled := false;
      remoteActive := None;
      queued := 0;
    }

    ghost predicate CanRegister(answer: ServerAnswer)
      reads this
    {
      && forwarded.Some? && handle && !cancelled
      && forwarded.value.host != "" && ByteLength(forwarded.value.host) <= HOST_BYTES
      && answer.Granted?
      && (forwarded.value.port == 0 ==> 0 < answer.port <= U16_MAX)
    }

    method RequestRemoteForward(answer: ServerAnswer) returns (r: Result<nat, ConnectError>)
      requires Valid()
      modifies this`forwarded, this`remoteActive, enabled
      ensures Valid()
      ensures r.Ok? <==> old(CanRegister(answer))
      ensures r.Ok? ==>
        && r.value != 0 && forwarded.None?
        && r.value == (if old(forwarded).value.port == 0 then answer.port else old(forwarded).value.port)
        && Gate() == remoteActive == Some((old(forwarded).value.host, r.value))
      ensures r.Err? ==> forwarded == old(forwarded) && remoteActive == old(remoteActive) && Gate() == old(Gate())
      ensures r.Err? ==> (r.error.NoRemoteForward? <==> old(forwarded).None?)
      ensures r.Err? && old(forwarded).Some? ==>
        var wanted := old(forwarded).value;
        match r.error
        case InvalidBindAddress => wanted.host == "" || ByteLength(wanted.host) > 255
        case SessionCancelled => !handle || cancelled || answer.Aborted?
        case RequestTimeout => answer.TimedOut?
        case RequestRefused => answer.Refused?
        case InvalidRemotePort => wanted.port == 0 && answer.Granted? && !(0 < answer.port <= 65535)
        case NoRemoteForward => false
    {
      if forwarded.None? {
        return Err(NoRemoteForward);
      }
      var wanted := forwarded.value;
      if wanted.host == "" || ByteLength(wanted.host) > HOST_BYTES {
        return Err(InvalidBindAddress);
      }
      if !handle || cancelled {
        return Err(SessionCancelled);
      }
      match answer {
        case Aborted => return Err(SessionCancelled);
        case TimedOut => return Err(RequestTimeout);
        case Refused => return Err(RequestRefused);
        case Granted(offered) =>
          var port := wanted.port;
          if wanted.port == 0 {
            if offered == 0 || offered > U16_MAX {
              return Err(InvalidRemotePort);
            }
            port := offered;
          }
          forwarded := None;
          remoteActive := Some((wanted.host, port));
          enabled.value := port;
          return Ok(port);
      }
    }

    /** The gate closes before the server is asked; a failed request keeps the registration for another try. */
    method CancelRemoteForward(answer: ServerAnswer) returns (r: Result<(), ConnectError>, requested: bool)
      requires Valid()
      modifies this`remoteActive, enabled
      ensures Valid() && Gate().None?
      ensures requested <==> old(remoteActive).Some? && handle
      ensures r.Ok? <==> old(remoteActive).None? || (handle && answer.Granted?)
      ensures remoteActive == if r.Ok? then None else old(remoteActive)
    {
      requested := false;
      if remoteActive.None? {
        return Ok(()), false;
      }
      enabled.value := 0;
      if !handle {
        return Err(SessionCancelled), false;
      }
      requested := true;
      match answer {
        case Granted(_) => remoteActive := None; r := Ok(());
        case TimedOut => r := Err(RequestTimeout);
        case _ => r := Err(RequestRefused);
      }
    }

    /** Disconnecting consumes the session, so its drop handler runs as well. */
    method Disconnect()
      requires Valid()
      modifies this`handle, this`cancelled, enabled
      ensures Valid() && !handle && cancelled && Gate().None?
    {
      handle := false;
      cancelled := true;
      enabled.value := 0;
    }

    /** The server offers a channel for a connection it accepted at `address`:`port`. */
    method OfferChannel(address: string, port: nat) returns (verdict: GateVerdict)
      requires Valid()
      modifies this`queued
      ensures Valid()
      ensures verdict.Prohibited? <==> Gate() != Some((address, port))
      ensures verdict.Accepted? <==> Gate() == Some((address, port)) && old(queued) < 64
      ensures verdict.Accepted? ==> remoteActive == Some((address, port))
      ensures queued == old(queued) + if verdict.Accepted? then 1 else 0
    {
      if binding.None? {
        return Prohibited;
      }
      var activePort := enabled.value;
      if activePort == 0 || binding.value.host != address || activePort != port {
        return Prohibited;
      }
      if queued == MAX_FORWARDED_CHANNELS {
        return ResourceShortage;
      }
      queued := queued + 1;
      return Accepted;
    }
  }
}
