/**
 * The connection bookkeeping of `MMSServer` (iec61850_wrapper.py).
 *
 * The native protocol library is not modelled: the handle that
 * `IedConnection_create` makes and the error code that
 * `IedConnection_connect` reports are parameters of `Connect`, and the
 * linked list `IedConnection_getLogicalDeviceList` returns is the sequence of
 * device names after its head node. The ghost field `calls` records, in
 * order, the calls the server makes into the library and the devices its
 * iterator yields, so that the order of events can be stated.
 */
module Iec61850Wrapper {
  import opened Options
  import Decimal

  /** `iec61850.IED_ERROR_OK`, the first value of the library's error enum. */
  const IED_ERROR_OK: int := 0

  /** A connection object made by `IedConnection_create`. */
  datatype Handle = Handle(id: nat)

  /** A call into the native library, or a device handed to the caller. */
  datatype Event =
    | Create(created: Handle)
    | ConnectTo(handle: Handle, host: string, port: int)
    | Destroy(destroyed: Handle)
    | Close(closed: Option<Handle>)
    | GetLogicalDeviceList(listed: Handle)
    | Yield(device: string)
    | DestroyList

  datatype Exception = ConnectionError(message: string)

  /** A call that returns nothing, or raises. */
  datatype Outcome = Done | Raised(exc: Exception)

  /** What iterating `logical_device_iterator` to its end produces. */
  datatype Devices = Yielded(devices: seq<string>) | DevicesRaised(exc: Exception)

  /** The message `f'IED error {error}'`. */
  function IedErrorMessage(error: int): string
  {
    "IED error " + Decimal.DecimalString(error)
  }

  /** The message of a failed connect carries its error code: two codes give
      the same message only when they are equal. */
  lemma IedErrorMessageCarriesCode(a: int, b: int)
    ensures IedErrorMessage(a) == IedErrorMessage(b) <==> a == b
  {
    var prefix := "IED error ";
    if IedErrorMessage(a) == IedErrorMessage(b) {
      assert IedErrorMessage(a)[|prefix|..] == Decimal.DecimalString(a);
      assert IedErrorMessage(b)[|prefix|..] == Decimal.DecimalString(b);
    }
    Decimal.DecimalStringInjective(a, b);
  }

  /** The events of yielding `devices` one after the other. */
  function Yields(devices: seq<string>): seq<Event>
  {
    seq(|devices|, i requires 0 <= i < |devices| => Yield(devices[i]))
  }

  /** `LinkedList_getNext`: positions count from the head node at 0, and the
      node at position `i > 0` holds `devices[i - 1]`. */
  function NextNode(devices: seq<string>, position: nat): Option<nat>
  {
    if position < |devices| then Some(position + 1) else None
  }

  class MmsServer {
    const host: string
    const port: int
    var con: Option<Handle>
    ghost var calls: seq<Event>

    /** A new server remembers where to connect and holds no connection. */
    constructor (host: string := "localhost", port: int := 102)
      ensures this.host == host && this.port == port
      ensures con == None && !Connected()
      ensures calls == []
    {
      this.host := host;
      this.port := port;
      con := None;
      calls := [];
    }

    /** `connected()`: local bookkeeping only, whether a handle is held. */
    predicate Connected()
      reads this
    {
      con.Some?
    }

    /** `connect()`: store a new handle and connect it. On an error code the
        handle is destroyed and `ConnectionError` is raised, yet the
        destroyed handle stays in `con`, so `Connected()` holds either way. */
    method Connect(created: Handle, error: int) returns (r: Outcome)
      modifies this
      ensures con == Some(created) && Connected()
      ensures r == if error == IED_ERROR_OK then Done else Raised(ConnectionError(IedErrorMessage(error)))
      ensures calls == old(calls) + [Create(created), ConnectTo(created, host, port)]
                       + (if error == IED_ERROR_OK then [] else [Destroy(created)])
    {
      con := Some(created);
      calls := calls + [Create(created)];
      calls := calls + [ConnectTo(con.value, host, port)];
      if error != IED_ERROR_OK {
        calls := calls + [Destroy(con.value)];
        return Raised(ConnectionError(IedErrorMessage(error)));
      }
      return Done;
    }

    /** `disconnect()`: close whatever `con` holds, without checking it, and
        forget it. */
    method Disconnect()
      modifies this
      ensures con == None && !Connected()
      ensures calls == old(calls) + [Close(old(con))]
    {
      calls := calls + [Close(con)];
      con := None;
    }

    /** `_assert_connected()`: raise exactly when no handle is held; nothing
        changes. */
    method AssertConnected() returns (r: Outcome)
      ensures r.Raised? <==> !Connected()
      ensures r.Raised? ==> r.exc == ConnectionError("")
    {
      if !Connected() {
        return Raised(ConnectionError(""));
      }
      return Done;
    }

    /** `logical_device_iterator()`, run to its end: check the connection
        before any library call, fetch the device list, yield the nodes after
        its head in order, and destroy the list only after the last one. */
    method LogicalDeviceIterator(deviceList: seq<string>) returns (r: Devices)
      modifies this
      ensures con == old(con)
      ensures !old(Connected()) ==> r == DevicesRaised(ConnectionError("")) && calls == old(calls)
      ensures old(Connected()) ==>
        && r == Yielded(deviceList)
        && calls == old(calls) + [GetLogicalDeviceList(con.value)] + Yields(deviceList) + [DestroyList]
    {
      var check := AssertConnected();
      if check.Raised? {
        return DevicesRaised(check.exc);
      }
      calls := calls + [GetLogicalDeviceList(con.value)];
      ghost var start := calls;
      var devices: seq<string> := [];
      var device := NextNode(deviceList, 0);
      while device.Some?
        invariant device.Some? ==> 1 <= device.value <= |deviceList| && |devices| == device.value - 1
        invariant device.None? ==> |devices| == |deviceList|
        invariant devices == deviceList[..|devices|]
        invariant calls == start + Yields(devices)
        invariant con == old(con)
        decreases |deviceList| - |devices|
      {
        devices := devices + [deviceList[device.value - 1]];
        calls := calls + [Yield(deviceList[device.value - 1])];
        device := NextNode(deviceList, device.value);
      }
      calls := calls + [DestroyList];
      return Yielded(devices);
    }
  }

  /** The life of a server: a failed connect still counts as connected, so
      the iterator goes on to the library with the destroyed handle; after
      `disconnect` the iterator raises before any library call. */
  method Lifecycle()
  {
    var server := new MmsServer();
    assert server.host == "localhost" && server.port == 102;

    var outcome := server.Connect(Handle(1), 7);
    assert outcome == Raised(ConnectionError(IedErrorMessage(7)));
    var check := server.AssertConnected();
    assert check == Done;
    var devices := server.LogicalDeviceIterator(["simpleIOGenericIO"]);
    assert devices == Yielded(["simpleIOGenericIO"]);
    assert Destroy(Handle(1)) in server.calls && GetLogicalDeviceList(Handle(1)) in server.calls;

    server.Disconnect();
    ghost var before := server.calls;
    devices := server.LogicalDeviceIterator(["simpleIOGenericIO"]);
    assert devices.DevicesRaised? && server.calls == before;

    outcome := server.Connect(Handle(2), IED_ERROR_OK);
    assert outcome == Done && server.Connected();
  }
}
