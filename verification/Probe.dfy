/** fetch of the Python probe (interop/python_probe.py): a second, separately written FETCH client. */
module Probe {
  import opened Bytes
  import opened Messages
  import opened Body
  import C = Client

  datatype Receipt = Receipt(mediaType: string, size: int, sha256: string)

  /** check_frame: the metadata of the awaited frame, or an error. */
  predicate CheckFrame(f: Frame, kind: Kind, id: uint32) {
    f.id == id && f.kind != Error && f.kind == kind
  }

  /** The probe succeeds on exactly the streams on which the Go client does, with the same bytes, and leaves the same
      frames unread; cfg.oversize is the probe's own limit on the metadata it writes. */
  method Fetch(cfg: C.Config, conn: Conn, path: string, id: uint32) returns (report: Option<Receipt>, output: seq<byte>)
    modifies conn`input, conn`output, conn`room
    ensures var call := C.Fetch(path, "");
            var (end, rest) := C.Run(cfg, id, call, C.AwaitReply, old(conn.input));
            && (report.Some? <==> !cfg.oversize(C.RequestFrame(cfg, id, call).meta) && old(conn.room) > 0 && end.Finished?)
            && (report.Some? ==>
                  && conn.input == rest && output == end.got
                  && report == Some(Receipt(end.answer.mediaType, end.answer.size, cfg.rules.sha(output))))
  {
    ghost var call := C.Fetch(path, "");
    output := [];
    var request := Frame(Request, id, Target(cfg.authority, path, "", "FETCH"), []);
    if cfg.oversize(request.meta) {
      return None, output;
    }
    var sent := conn.Send(request);
    if !sent {
      return None, output;
    }
    ghost var input := conn.input;
    ghost var outcome := C.Run(cfg, id, call, C.AwaitReply, input);
    var head := conn.Read();
    if head == None {
      return None, output;
    }
    ghost var st := C.OnReply(cfg, id, call, head.value);
    if !CheckFrame(head.value, Kind.Response, id) || !head.value.meta.Described? {
      return None, output;
    }
    var size, mediaType := head.value.meta.size, head.value.meta.mediaType;
    if !(0 <= size <= Min(MAX_RESOURCE, cfg.maxBytes)) {
      return None, output;
    }
    if !(1 <= |mediaType| <= 255) || !PrintableAscii(mediaType) {
      return None, output;
    }
    assert st == C.Taking(C.Stored(mediaType, size), []);
    var received := 0;
    while true
      invariant received == |output|
      invariant C.Run(cfg, id, call, C.Taking(C.Stored(mediaType, size), output), conn.input) == outcome
      decreases |conn.input|
    {
      var frame := conn.Read();
      if frame == None {
        return None, output;
      }
      var f := frame.value;
      if f.id != id {
        return None, output;
      }
      if f.kind == Data {
        if f.meta != Empty {
          return None, output;
        }
        if |f.body| > size - received {
          return None, output;
        }
        output := output + f.body;
        received := received + |f.body|;
      } else if f.kind == End {
        if !f.meta.Ending? || received != size || f.meta.size != received {
          return None, output;
        }
        var digest := cfg.rules.sha(output);
        if f.meta.sha256 != digest {
          return None, output;
        }
        return Some(Receipt(mediaType, received, digest)), output;
      } else {
        return None, output;
      }
    }
  }
}
