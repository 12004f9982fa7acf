/** The registry of error replies the printer can send ("ER,<id>,<code>"), looked up by exact code. */
module ErrorResponses {
  import opened Wrappers
  import opened Wire

  datatype ErrorResponse = ErrorResponse(
    errorCode: Int32,
    errorName: string,
    errorDescription: string,
    countermeasures: string)

  const CommandUnrecognizable := ErrorResponse(0, "Command Unrecognizable error",
    "An undefined identification ErrorCode was sent.",
    "Check the data contents, and then send the correct data.")
  const Busy := ErrorResponse(1, "Busy error",
    "Because the MK-G1000 is busy printing or performing another operation, the command cannot be executed.",
    "After printing or another command has finished, resend the command.")
  const Status := ErrorResponse(2, "Status error",
    "Because an abnormal or caution level error has occurred, the command cannot be executed. Additionally, this error is returned as a response if a smart operation start command is received when smart operation cannot be started.",
    "After confirming the error contents using the \"EV\" command and removing the cause of the error, cancel the error and change the MK-G1000 to RUN status.")
  const Priority := ErrorResponse(3, "Priority error",
    "A setting or initialize command was sent while the console had priority.",
    "Switch the console to the Main screen, and then resend the command.")
  const DataLength := ErrorResponse(20, "Data length error",
    "The data length of the command is invalid.",
    "Check the data contents, and then send the correct data.")
  const DataRange := ErrorResponse(22, "Data range error",
    "Data out of the setting range was received.",
    "Check the data contents, and then send the correct data.")
  const MemoryOver := ErrorResponse(31, "Memory over error",
    "The command data exceeds the number of characters that can be stored in a single setting.",
    "Reduce the number of characters to 4,000 bytes or less, and then resend the command.")
  const TimeOut := ErrorResponse(40, "Time-out error",
    "The MK-G1000 is in a state such that it cannot process the response within 3 seconds.",
    "Resend the command (Ethernet only).")
  const InvalidChecksum := ErrorResponse(90, "Invalid checksum error",
    "The checksum value is invalid.",
    "Check the data and checksum contents, and then send the correct data.")

  /** The entries in the order the library lists them. */
  const Data: seq<ErrorResponse> := [
    CommandUnrecognizable, Busy, Status, Priority, DataLength, DataRange, MemoryOver, TimeOut, InvalidChecksum
  ]

  /** The codes of a table, in table order. */
  function Codes(table: seq<ErrorResponse>): (codes: seq<Int32>)
    ensures |codes| == |table|
    ensures forall i :: 0 <= i < |table| ==> codes[i] == table[i].errorCode
  {
    if |table| == 0 then [] else [table[0].errorCode] + Codes(table[1..])
  }

  /** `table.First(e => e.ErrorCode == code)`, with None where First would throw. */
  function FirstWithCode(table: seq<ErrorResponse>, code: Int32): (r: Option<ErrorResponse>)
    ensures r.Some? <==> code in Codes(table)
    ensures r.Some? ==> r.value in table && r.value.errorCode == code
  {
    if |table| == 0 then None
    else if table[0].errorCode == code then Some(table[0])
    else
      assert Codes(table) == [table[0].errorCode] + Codes(table[1..]);
      FirstWithCode(table[1..], code)
  }

  function Lookup(code: Int32): Option<ErrorResponse>
  {
    FirstWithCode(Data, code)
  }

  /** The registry holds exactly nine entries, with these codes in this order. */
  lemma RegistryShape()
    ensures |Data| == 9
    ensures forall i :: 0 <= i < 9 ==> Data[i].errorCode == [0, 1, 2, 3, 20, 22, 31, 40, 90][i]
  {
  }

  lemma RegistryCodes()
    ensures Codes(Data) == [0, 1, 2, 3, 20, 22, 31, 40, 90]
  {
    RegistryShape();
  }

  /** No two entries share a code, so first-match lookup is a partial function. */
  lemma CodesDistinct()
    ensures forall i, j :: 0 <= i < j < |Data| ==> Data[i].errorCode != Data[j].errorCode
  {
    RegistryShape();
    var codes: seq<Int32> := [0, 1, 2, 3, 20, 22, 31, 40, 90];
    assert forall i, j :: 0 <= i < j < 9 ==> codes[i] < codes[j];
  }

  /** Looking up an entry's own code finds that entry. */
  lemma LookupFindsEntry(i: nat)
    requires i < |Data|
    ensures Lookup(Data[i].errorCode) == Some(Data[i])
  {
    CodesDistinct();
    var r := Lookup(Data[i].errorCode);
    assert Data[i].errorCode in Codes(Data);
    var k :| 0 <= k < |Data| && Data[k] == r.value;
  }

  /** Lookup succeeds for the nine listed codes and for no other, and finds an entry with the wanted code. */
  lemma LookupDomain(code: Int32)
    ensures Lookup(code).Some? <==> code in {0, 1, 2, 3, 20, 22, 31, 40, 90}
    ensures Lookup(code).Some? ==> Lookup(code).value.errorCode == code
  {
    var codes: seq<Int32> := [0, 1, 2, 3, 20, 22, 31, 40, 90];
    assert Codes(Data) == codes by { RegistryCodes(); }
    assert code in codes <==> code in {0, 1, 2, 3, 20, 22, 31, 40, 90} by {
      if code in codes {
        var k :| 0 <= k < 9 && codes[k] == code;
      }
    }
  }

  lemma BusyAndStatusNames()
    ensures Lookup(1).Some? && Lookup(1).value.errorName == "Busy error"
    ensures Lookup(2).Some? && Lookup(2).value.errorName == "Status error"
  {
    RegistryShape();
    LookupFindsEntry(1);
    LookupFindsEntry(2);
  }

  lemma TimeoutAndChecksumNames()
    ensures Lookup(40).Some? && Lookup(40).value.errorName == "Time-out error"
    ensures Lookup(90).Some? && Lookup(90).value.errorName == "Invalid checksum error"
  {
    RegistryShape();
    LookupFindsEntry(7);
    LookupFindsEntry(8);
  }

  lemma UnlistedCodeMisses()
    ensures Lookup(999).None?
  {
    LookupDomain(999);
  }
}
