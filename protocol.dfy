/**
 * Protocol.get_msg_type of kalah_python/utils/protocol.py: the kind of a message from the
 * game engine, told by its prefix.
 */
module Protocol {
  import opened Wrappers
  import Boards

  datatype MsgType = Start | State | End

  /** The ValueError of an unknown message. */
  datatype ProtocolError = InvalidMsg(msg: string)

  /** str.startswith: msg begins with the characters of p, one by one. */
  predicate HasPrefix(msg: string, p: string)
    ensures HasPrefix(msg, p) <==> |p| <= |msg| && forall k :: 0 <= k < |p| ==> msg[k] == p[k]
  {
    |p| <= |msg| && msg[..|p|] == p
  }

  /** get_msg_type: "START;", then "CHANGE;", then "END\n"; anything else raises. */
  function GetMsgType(msg: string): (r: Result<MsgType, ProtocolError>)
    ensures r == Ok(Start) <==> HasPrefix(msg, "START;")
    ensures r == Ok(State) <==> HasPrefix(msg, "CHANGE;")
    ensures r == Ok(End) <==> HasPrefix(msg, "END\n")
    ensures r.Err? <==> !HasPrefix(msg, "START;") && !HasPrefix(msg, "CHANGE;") && !HasPrefix(msg, "END\n")
    ensures r.Err? ==> r.error == InvalidMsg(msg)
  {
    PrefixesExclusive(msg);
    if HasPrefix(msg, "START;") then Ok(Start)
    else if HasPrefix(msg, "CHANGE;") then Ok(State)
    else if HasPrefix(msg, "END\n") then Ok(End)
    else Err(InvalidMsg(msg))
  }

  /** No message has two of the three prefixes, so the order of the tests does not matter. */
  lemma PrefixesExclusive(msg: string)
    ensures !(HasPrefix(msg, "START;") && HasPrefix(msg, "CHANGE;"))
    ensures !(HasPrefix(msg, "START;") && HasPrefix(msg, "END\n"))
    ensures !(HasPrefix(msg, "CHANGE;") && HasPrefix(msg, "END\n"))
  {
    if HasPrefix(msg, "START;") {
      assert msg[0] == 'S';
    }
    if HasPrefix(msg, "CHANGE;") {
      assert msg[0] == 'C';
    }
    if HasPrefix(msg, "END\n") {
      assert msg[0] == 'E';
    }
  }

  /** The end message needs its newline: "END" alone is refused. */
  lemma EndNeedsNewline()
    ensures GetMsgType("END").Err?
    ensures GetMsgType("END\n") == Ok(End)
    ensures GetMsgType("START;North\n") == Ok(Start)
  {
    assert !HasPrefix("END", "END\n");
    assert "START;North\n"[..6] == "START;";
  }

  /** Every state message that update_board reads is classified STATE. */
  lemma ChangeMessageIsState(move: string, cells: seq<nat>, rest: string)
    requires |cells| == 16
    ensures GetMsgType(Boards.ChangeMessage(move, cells, rest)) == Ok(State)
  {
    var m := Boards.ChangeMessage(move, cells, rest);
    assert m[..7] == "CHANGE;";
  }
}
