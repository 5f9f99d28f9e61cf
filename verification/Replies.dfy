/** Composing and sending one reply (src/reply.c). */
module Replies {
  import opened CStrings
  import opened Decimal
  import opened Requests
  import opened Interpreter
  import opened ServerState
  import Resp

  class ServerReply {
    var msg: Bytes
    var error: int

    /** reply_new */
    constructor ()
      ensures msg == [] && error == 1
    {
      msg, error := [], 1;
    }

    /** reply_send */
    method Send(client: Client)
      modifies client`out
      ensures client.out == old(client.out) + msg
    {
      client.out := client.out + msg;
    }

    method SimpleStr(client: Client, text: Bytes)
      modifies this, client`out
      ensures client.out == old(client.out) + Resp.Encode(Resp.Simple(text)) && error == 0
      ensures client.out == old(client.out) + (Ascii("+") + text + [13, 10])
    {
      Resp.EncodedBytes(Resp.Simple(text));
      msg := [43] + text + [CR, LF];
      error := 0;
      Send(client);
    }

    method Err(client: Client, text: Bytes)
      modifies this, client`out
      ensures client.out == old(client.out) + Resp.Encode(Interpreter.Err(text)) && error == 0
      ensures client.out == old(client.out) + (Ascii("-ERR ") + text + [13, 10])
    {
      ErrorBytes(text);
      msg := [45, 69, 82, 82, 32] + text + [CR, LF];
      error := 0;
      assert [45] + ([69, 82, 82, 32] + text) == [45, 69, 82, 82, 32] + text;
      Send(client);
    }

    /** The int parameter of reply_integer narrows what callers pass. */
    method Integer(client: Client, n: int)
      modifies this, client`out
      ensures client.out == old(client.out) + Resp.Encode(Resp.Integer(WrapInt(n))) && error == 0
      ensures client.out == old(client.out) + (Ascii(":") + Format(WrapInt(n)) + [13, 10])
    {
      Resp.EncodedBytes(Resp.Integer(WrapInt(n)));
      msg := [58] + Format(WrapInt(n)) + [CR, LF];
      error := 0;
      Send(client);
    }

    /** reply_bulk_str, and reply_nil for a null pointer; only the latter leaves `error` alone. */
    method BulkStr(client: Client, data: Option<Bytes>)
      modifies this, client`out
      ensures client.out == old(client.out) + Resp.Encode(ReplyOf(Value(data)))
      ensures client.out == old(client.out)
                + match data
                  case None => Ascii("$-1") + [13, 10]
                  case Some(d) => Ascii("$") + Format(|d|) + [13, 10] + d + [13, 10]
      ensures error == if data.Some? then 0 else old(error)
    {
      Resp.EncodedBytes(ReplyOf(Value(data)));
      match data
      case None =>
        msg := [36, 45, 49, CR, LF];
        assert msg == Resp.Encode(Resp.Nil);
        Send(client);
      case Some(d) =>
        msg := [36] + Format(|d|) + [CR, LF] + d + [CR, LF];
        error := 0;
        Send(client);
    }
  }
}
