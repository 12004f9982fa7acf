# Keyence MK-G1000 printer client: a verified model of its codec layer

This project models, in Dafny, the parts of the Keyence MK-G1000 inkjet
printer client that compute something. The client speaks the printer's ASCII
command protocol: a command is an identification code followed by
comma-prefixed parameters, framed with a carriage return or with STX … ETX.
The reply is normal or an `ER` error reply. The modelled parts are:

- **The transaction** (`command.dfy`, `connection.dfy`, `error_responses.dfy`):
  - framing a command (`AddDelimiter`);
  - reading the reply frame byte by byte from the stream (`GetRawResponseString`, over a finite byte sequence);
  - classifying the reply as a normal response or as one of the nine registered error replies (`GetErrorResponse`, `SendCommand`).
- **The parameter records**, one module per command family: barcode, 2D code, encoded characters, counters, line settings, message conditions, print character string, expiration period, time and shift time. Each record has:
  - a validating constructor (`CreateParameters`);
  - an encoder (`ParameterString`);
  - a decoder (`CreateParametersFromResponseString`).
- **The request builders with real logic** (`commands.dfy`):
  - the ASCII-code character string setting with its cumulative 999-character cap;
  - the in-operation string change with its cap by character code;
  - the print-result request and its reply;
  - initialisation of line settings;
  - the encoded-character request and initialisation;
  - the counter-condition request and initialisation;
  - the error-status list parser.

C# exceptions are `Err` values of a `Fault` type:
- `InvalidArgument(field)` for the guard chains' `ArgumentException` and `AggregateException`;
- `BadFormat` for `int.Parse`, `Enum.Parse` and the token maps;
- `MissingField(i)` for an index past the end of a split;
- `NullString` for `.Length` on an unset array slot;
- `NoMatch` for `First` with no match;
- `NegativeLength` for an array allocated with a negative size;
- `NotImplemented` for the serial transport.

A null reference is `None`. A C# `int` is `Int32`, a `uint` is `UInt32`; both are bounded subset types of `int`.

Integers are written and read as .NET does under a culture whose signs are '-' and '+'. `int.Parse` and `uint.Parse` are modelled this way:
- leading and trailing white space is trimmed, so the trailing carriage return left on the last field of a CR reply is tolerated;
- an optional sign and a string of digits follow;
- anything else, including a value out of range, is `BadFormat`.

`Enum.Parse` reads a number, or a member name for the two enums whose records are written by name.

A string's length is C#'s `.Length`, the number of UTF-16 code units (`Utf16Length`): a Dafny string is a sequence of Unicode scalar values, and one outside the Basic Multilingual Plane counts twice. Every length cap is stated on it.

Round trips are stated on `id + p.ParameterString()`. Here `id` is the identification code the printer echoes in front of its reply, and commas inside it are excluded. Three families have a reply with one extra field ahead of the record, where the decoders read one position later than the encoder writes: the counter current value, the counter repeat count and the time. For those, the round trip is stated with one extra field in front.

The imperative parts of the library are methods with loops and invariants, each proved equal to a specification function:
- `AddDelimiter`;
- the byte-reading loop;
- the 999-character builder loop;
- the error-status array fill;
- the encoded-character validators and decoder loops.

The rest are functions with contracts, and lemmas about them.

## Model

| member | source | states |
|---|---|---|
| Command.Frame | src/Command.cs:18-31 | CR framing is the body followed by one 0x0D; ETX framing is 0x02, the body, 0x03 |
| Command.AddDelimiter | src/Command.cs:18-31 | the rewritten string is the frame: CR adds exactly one trailing 0x0D; ETX adds 0x02 in front and 0x03 behind, with no 0x0D at either end |
| Command.GetRawResponseString | src/Command.cs:33-59 | the byte loop returns exactly ReadFrame of the stream: one byte per read, stopping right after the first terminator, or the partial string at the end of the stream |
| Command.ReadFrameIsPrefix | src/Command.cs:33-59 | the string read is the ASCII decoding of a prefix of the stream |
| Command.ReadFrameStopsAtFirst | src/Command.cs:46-55 | no terminator occurs before the last character read |
| Command.ReadFrameEnds | src/Command.cs:42-58 | the string read ends in the terminator exactly when the stream holds one; otherwise it is the whole stream, with no error |
| Command.ReadFrameOfFrame | src/Command.cs:18-59 | a frame written by AddDelimiter is read back whole, whatever follows it on the stream |
| Command.GetErrorResponse | src/Command.cs:61-74 | succeeds exactly when split[2] exists, parses and has a registered code, and then gives the registry entry with that code; a reply of two fields or fewer is a missing field, an unparsable split[2] a format error, and an unregistered code a failed lookup |
| Command.Weighted | src/Command.cs:108 | the characters the culture-sensitive comparison sees: none of them is a control character of no weight |
| Command.OrdinalErrorReply | src/Command.cs:108 | a reply whose first two characters are "ER" passes the culture-sensitive test |
| Command.IgnorableLeadIgnored | src/Command.cs:108 | a leading control character of no weight, such as STX, does not change the outcome of the test |
| Command.NonErrorReply | src/Command.cs:108-116 | a reply that begins with a weighted character other than 'E' is not an error reply |
| Command.Classify | src/Command.cs:108-116 | a reply starting with "ER" under the culture-sensitive comparison becomes its registered error, or fails when the lookup fails; any other reply is returned unchanged with no error |
| Command.SendCommand | src/Command.cs:76-128 | sends the identification code followed by the parameters, framed under the connection's delimiter, and classifies the frame read back; the serial transport sends nothing and fails with not implemented |
| Command.ErrorReplyFields | src/Command.cs:64-65 | a CR-framed error reply splits into "ER", the echoed code and the error code with its CR |
| Command.GetErrorResponseOfBody | src/Command.cs:61-74 | the error code of an error reply is looked up in the registry: the entry when it is registered, a failed lookup otherwise |
| Command.ClassifyErrorReplyBody | src/Command.cs:108-112 | an unframed error reply is classified by its code |
| Command.ErrorReplyClassifiedUnderCR | src/Command.cs:104-112 | under CR framing, an error reply read from the stream is classified as its registered error, or as a failed lookup for an unknown code |
| Command.ParseIntWithEndOfText | src/Command.cs:66 | int.Parse refuses a number followed by ETX, which is not white space |
| Command.ErrorReplyFieldsUnderETX | src/Command.cs:64-65 | an ETX-framed error reply splits into STX with "ER", the echoed code, and the error code with its ETX |
| Command.ErrorReplyFailsUnderETX | src/Command.cs:61-116 | under ETX framing the reply read starts with STX; the test skips it and takes the error branch, but the error code keeps the ETX, so every error reply ends in a format error |
| Command.UnframeOfFrame | src/Command.cs:25-27 | removing the framing characters undoes ETX framing |
| Command.ClassifyFramedUnderCR | src/Command.cs:108-116 | the corrected classification is the library's under CR framing |
| Command.ErrorReplyClassifiedFramed | src/Command.cs:104-116 | with the "ER" test applied inside the frame, an error reply is recognised under both disciplines |
| Connection.EthernetConnection | src/EthernetConnection.cs:18-28 | an Ethernet connection keeps its address, port and delimiter; the defaults are port 9004 and CR framing |
| Connection.BaudRateValues | src/Rs232CBaudRate.cs:13-21 | the six speeds are 2400 to 115200 bits per second, one per member |
| Connection.Rs232CConnection | src/Rs232CConnection.cs:20-32 | a serial connection keeps its baud rate, parity, stop bit and delimiter; the defaults are 38400 baud, no parity, one stop bit and CR framing |
| Connection.Rs232CDefaults | src/Rs232CConnection.cs:20-26 | the default serial connection runs at 38400 bits per second with no parity, one stop bit and CR framing |
| ErrorResponses.Codes | src/ErrorResponses.cs:15-70 | the registry's codes, one per entry, in order |
| ErrorResponses.FirstWithCode | src/ErrorResponses.cs:15-70 | an entry is found exactly when the code is among the table's codes, and a found entry is in the table with the code asked for |
| ErrorResponses.RegistryShape | src/ErrorResponses.cs:15-70 | the registry has nine entries, whose codes by position are 0, 1, 2, 3, 20, 22, 31, 40 and 90 |
| ErrorResponses.RegistryCodes | src/ErrorResponses.cs:15-70 | the codes are 0, 1, 2, 3, 20, 22, 31, 40 and 90, in that order |
| ErrorResponses.CodesDistinct | src/ErrorResponses.cs:15-70 | no two entries share a code |
| ErrorResponses.LookupFindsEntry | src/ErrorResponses.cs:15-70 | the lookup of any entry's code gives back that entry |
| ErrorResponses.LookupDomain | src/ErrorResponses.cs:15-70 | the lookup succeeds exactly for the nine listed codes |
| ErrorResponses.BusyAndStatusNames | src/ErrorResponses.cs:22-33 | code 1 is "Busy error" and code 2 is "Status error" |
| ErrorResponses.TimeoutAndChecksumNames | src/ErrorResponses.cs:58-69 | code 40 is "Time-out error" and code 90 is "Invalid checksum error" |
| ErrorResponses.UnlistedCodeMisses | src/ErrorResponses.cs:15-70 | an unlisted code such as 999 has no entry |
| BarcodeConditions.BarcodeTokensInverse | src/Barcode.cs:55-89 | the type-to-token and token-to-type maps are mutual inverses over all twelve types |
| BarcodeConditions.BarcodeTokens | src/Barcode.cs:73-89 | a token is read exactly when it is "0" to "7" or "E" to "H"; every other string is refused |
| BarcodeConditions.CreateParameters | src/Barcode.cs:109-215 | accepts exactly program 1-500, barcode 1-4, height 1-32, narrow bar and space 1-4, wide bar and space 2-9 and quiet zone 0-99; stores every argument unchanged, the three enums unchecked |
| BarcodeConditions.SplitParameterString | src/Barcode.cs:49-50 | the encoded form splits into the identification code followed by the eleven fields in order |
| BarcodeConditions.FieldsReadBack | src/Barcode.cs:91-107 | each field the encoder writes reads back at its index as the value written |
| BarcodeConditions.RoundTrip | src/Barcode.cs:49-107 | the decoder reads back every record the encoder writes |
| BarcodeCharacterString.CreateParameters | src/Barcode.cs:239-279 | accepts exactly program 1-500, barcode 1-4 and contents of at most 70 UTF-16 code units (C# `.Length`, where a character outside the Basic Multilingual Plane counts twice), stored unchanged |
| BarcodeCharacterString.SupplementaryContentsRefused | src/Barcode.cs:266-273 | forty characters outside the Basic Multilingual Plane are 80 code units and are refused |
| BarcodeCharacterString.RoundTrip | src/Barcode.cs:223-237 | the decoder reads back the record when the contents hold no comma |
| BarcodeCharacterString.ParameterStringWithComma | src/Barcode.cs:223-224 | contents "a,b" are written as two fields a and b |
| BarcodeCharacterString.CommaInContentsTruncates | src/Barcode.cs:223-237 | with a comma in the contents, the decoder keeps only the part before it |
| TwoDCodeConditions.TwoDCodeTokensInverse | src/TwoDCode.cs:83-109 | the token maps are mutual inverses over the six types; the tokens are "8", "9" and "A" to "D" |
| TwoDCodeConditions.CompatibilityAsRanges | src/TwoDCode.cs:182-246 | the switches over aliased enum names amount to ranges: QR size 1, level 0-3, password 0-1; MicroQR size 1-4, level 3, password 0; Data Matrix size 1-16, macro 0-1, password 0 |
| TwoDCodeConditions.CreateParameters | src/TwoDCode.cs:127-258 | accepts exactly program 1-500, barcode 1-4, cell size 1-2, quiet zone 0-5 and the per-type compatibility ranges; stores every argument unchanged |
| TwoDCodeConditions.SplitParameterString | src/TwoDCode.cs:77-78 | the encoded form splits into the identification code followed by the nine fields in order |
| TwoDCodeConditions.FieldsReadBack | src/TwoDCode.cs:111-125 | each field the encoder writes reads back at its index |
| TwoDCodeConditions.RoundTrip | src/TwoDCode.cs:77-125 | the decoder reads back every record the encoder writes |
| EncodedCharacters.IdentificationCodeLetters | src/EncodedCharacters.cs:154-188 | set codes are RA, RC, … RS and request codes RB, RD, … RT for the ten types; the catch-all type has neither |
| EncodedCharacters.IdentificationCodesDistinct | src/EncodedCharacters.cs:154-188 | distinct types have distinct codes, and no set code is a request code |
| EncodedCharacters.EncodedTypeToString | src/EncodedCharacters.cs:190-207 | every type's token is one comma-free character |
| EncodedCharacters.EncodedTypeTokensInverse | src/EncodedCharacters.cs:190-226 | the token maps are inverses over all eleven types; the tokens are "0" to "9" and "A" |
| EncodedCharacters.RenderAll | src/EncodedCharacters.cs:34-35 | a null string is interpolated as nothing and a set string as itself, slot by slot |
| EncodedCharacters.DivisionFieldsAt | src/EncodedCharacters.cs:148-149 | division i is written as its start time at field 2i and its string at field 2i+1 |
| EncodedCharacters.FirstBadString | src/EncodedCharacters.cs:435-450 | no fault exactly when each checked string is set and at most ten UTF-16 code units; otherwise the fault of one of them |
| EncodedCharacters.FirstBadStringStops | src/EncodedCharacters.cs:435-450 | the first string that fails its check decides the fault |
| EncodedCharacters.ValidationAccepts | src/EncodedCharacters.cs:404-457 | validation passes exactly for n 1-10, k 1-10, at most ten strings and every string but the last set and at most ten UTF-16 code units |
| EncodedCharacters.ValidateEncodedCharactersParameters | src/EncodedCharacters.cs:404-457 | the validator's loop gives exactly the validation outcome, and true whenever it succeeds |
| EncodedCharacters.CreateFlatEncodedCharactersParameters | src/EncodedCharacters.cs:325-402 | builds the record of the given type with every argument unchanged exactly when validation passes and the type is neither the shift code nor the catch-all |
| EncodedCharacters.CopiedDivisions | src/EncodedCharacters.cs:299-316 | the returned array copies every division but the last; the last stays (0, null) |
| EncodedCharacters.CreateShiftCodeEncodedCharactersParameters | src/EncodedCharacters.cs:269-323 | accepts exactly n 1-10, k 1-10, at most 25 divisions and every string but the last set and at most ten UTF-16 code units; the record holds the copied divisions |
| EncodedCharacters.FlatSlots | src/EncodedCharacters.cs:251-265 | split.Length - 4 slots; slot i is split[i+4] for all but the last, which stays null |
| EncodedCharacters.ShiftSlots | src/EncodedCharacters.cs:232-249 | as many slots as fields; fails when the first of two or more fields is no number |
| EncodedCharacters.ShiftSlotsFailsExactly | src/EncodedCharacters.cs:232-249 | fails exactly when the start time (even-indexed field) of some full pair does not parse |
| EncodedCharacters.FillFlatSlots | src/EncodedCharacters.cs:251-265 | the flat decoder's loop fills exactly FlatSlots |
| EncodedCharacters.FillShiftSlots | src/EncodedCharacters.cs:232-249 | the shift-code decoder's loop, with its double increment, fills exactly ShiftSlots |
| EncodedCharacters.CreateEncodedParametersFromResponseString | src/EncodedCharacters.cs:228-267 | decodes the reply exactly as the specification function: negative slot count, loop, header from split[1..3], then the constructor for the type |
| EncodedCharactersRoundTrip.SplitEncoded | src/EncodedCharacters.cs:34-35 | an encoded record splits into the identification code, the three header fields and the body fields |
| EncodedCharactersRoundTrip.HeaderReadBack | src/EncodedCharacters.cs:258-264 | the three header fields read back as written |
| EncodedCharactersRoundTrip.EncodedFields | src/EncodedCharacters.cs:34-35 | the split form holds the header at 1..3 and the body from index 4 on |
| EncodedCharactersRoundTrip.FlatDecodeOfEncode | src/EncodedCharacters.cs:251-265 | as written, decoding an encoded flat record gives it back with its last string unset, so no record with a string survives |
| EncodedCharactersRoundTrip.LastStringEscapesCheck | src/EncodedCharacters.cs:435-450 | as written, a single string of eleven characters passes the ten-character check; the corrected validator refuses it |
| EncodedCharactersRoundTrip.CorrectedValidationAccepts | src/EncodedCharacters.cs:404-457 | the corrected validator accepts the ranges and up to ten strings, every one set and at most ten UTF-16 code units |
| EncodedCharactersRoundTrip.CorrectedFlatSlots | src/EncodedCharacters.cs:251-265 | the corrected flat decoder fills every slot from its field |
| EncodedCharactersRoundTrip.CorrectedShiftSlots | src/EncodedCharacters.cs:232-249 | the corrected shift-code decoder gives one division per pair of fields |
| EncodedCharactersRoundTrip.CorrectedShiftCodeAccepts | src/EncodedCharacters.cs:269-323 | the corrected shift-code constructor accepts exactly the ranges, at most 25 divisions and every string set and at most ten UTF-16 code units, and keeps every division it accepts |
| EncodedCharactersRoundTrip.ShiftConstructorDropsLast | src/EncodedCharacters.cs:299-316 | as written, a single valid division is replaced by (0, null); the corrected constructor keeps it |
| EncodedCharactersRoundTrip.CorrectedFlatRoundTrip | src/EncodedCharacters.cs:228-267 | the corrected decoder gives back every flat record the corrected validator accepts |
| EncodedCharactersRoundTrip.ShiftSlotsOfDivisionFields | src/EncodedCharacters.cs:232-249 | as written, each division is read into a slot followed by an empty (0, null) slot |
| EncodedCharactersRoundTrip.CorrectedShiftSlotsOfDivisionFields | src/EncodedCharacters.cs:232-249 | the corrected shift-code decoder reads back exactly the divisions written |
| EncodedCharactersRoundTrip.ShiftDecodeOfEncode | src/EncodedCharacters.cs:228-249 | as written, decoding an encoded shift-code record hands the constructor the divisions with gaps |
| EncodedCharactersRoundTrip.ShiftRoundTripAsWritten | src/EncodedCharacters.cs:228-323 | as written, a shift-code record survives only with no divisions; one division comes back followed by an extra (0, null); two to twelve fail on a null string |
| EncodedCharactersRoundTrip.CorrectedShiftRoundTrip | src/EncodedCharacters.cs:228-323 | the corrected decoder gives back every shift-code record the corrected constructor accepts |
| Counter.TimingMembersWellNamed | src/Counter.cs:13-23 | the two timing enums have distinct, plain member names, so their interpolated names read back |
| Counter.CheckCounterNumber | src/Counter.cs:89-97 | accepts exactly a letter A-J or L, or a string int.Parse reads as 1-9; an unparsable other string is a format error |
| Counter.CounterNumberK | src/Counter.cs:89-90 | "K" is refused, through the failing parse |
| Counter.CreateCounterCurrentValueParameters | src/Counter.cs:72-103 | accepts exactly program 0-500 and a valid counter number; stores the arguments unchanged |
| Counter.CreateCounterCurrentRepeatCountParameters | src/Counter.cs:118-149 | accepts exactly program 0-500 and a valid counter number; stores the arguments unchanged |
| Counter.ThreeFieldsReadBack | src/Counter.cs:62-70 | the program, counter and value read back from split[2..4] |
| Counter.CurrentValueDecodeOfEncodeFails | src/Counter.cs:56-70 | the encoder writes split[1..3] and the decoder reads split[2..4], so the encoded form itself never decodes |
| Counter.CurrentValueOfSplit | src/Counter.cs:62-70 | a reply holding the fields at split[2..4] decodes to the record |
| Counter.CurrentValueShiftedRoundTrip | src/Counter.cs:56-70 | behind one extra field, the decoder reads back what the encoder wrote |
| Counter.RepeatCountDecodeOfEncodeFails | src/Counter.cs:47-48 | the encoded repeat-count form itself never decodes, for the same one-position shift |
| Counter.RepeatCountOfSplit | src/Counter.cs:108-116 | a reply holding the fields at split[2..4] decodes to the record |
| Counter.RepeatCountShiftedRoundTrip | src/Counter.cs:108-116 | behind one extra field, the decoder reads back what the encoder wrote |
| Counter.CheckProgramNumber | src/Counter.cs:191-198 | accepts exactly "ALL" or a string int.Parse reads as 0-500; an unparsable other string is a format error |
| Counter.CreateCounterConditionsParameters | src/Counter.cs:172-249 | accepts exactly a valid program and counter, digits 1-10, number system 2-36 and step 0-9999; the values, repetitions and timings pass through unchanged |
| Counter.SplitCounterConditions | src/Counter.cs:38-39 | the encoded form splits into the identification code and the eleven fields, timings by name |
| Counter.CounterConditionsOfSplit | src/Counter.cs:154-170 | a reply holding the fields at split[1..11], timings by name, decodes to the record |
| Counter.CounterConditionsRoundTrip | src/Counter.cs:38-170 | the decoder reads back every record the encoder writes when the program and counter strings hold no comma |
| Counter.CreatedCounterConditionsRoundTrip | src/Counter.cs:172-249 | every record the constructor accepts reads back unchanged |
| Enums.ParseEnumOfIntToString | src/Barcode.cs:99 | Enum.Parse reads back every number written as an enum's integer |
| Enums.EnumToStringRoundTrip | src/Counter.cs:168-169 | Enum.Parse reads back a value written by name, or as its number when it has no name |
| Enums.EnumToStringCommaFree | src/Counter.cs:38-39 | an interpolated enum never holds a comma |
| Enums.NamedEnumFieldOfEnumToString | src/Counter.cs:168-169 | a field written by name reads back through Enum.Parse |
| LineSettingsAndPrintAdjustment.CheckProgramNumber | src/LineSettingsAndPrintAdjustment.cs:146-153 | accepts exactly "CMN" or a string int.Parse reads as 1-500; an unparsable other string is a format error |
| LineSettingsAndPrintAdjustment.CreateParameters | src/LineSettingsAndPrintAdjustment.cs:113-274 | accepts exactly a valid program, a title of at most 32 UTF-16 code units and the numeric ranges (print count -1 or 0-99, pulses -1 or 1-9999, speed -1 or 10-99999, delays and interval 10-99999, height 40-200, width 40-500, ignore 0-9999, time limit 0-999); enums pass through |
| LineSettingsAndPrintAdjustment.SplitParameterString | src/LineSettingsAndPrintAdjustment.cs:82-83 | the encoded form splits into the identification code and the nineteen fields, print mode 0 at split[18] |
| LineSettingsAndPrintAdjustment.DecodeOfSplit | src/LineSettingsAndPrintAdjustment.cs:88-111 | split[1..17] read back as the fields, and the encoder type comes from the index given |
| LineSettingsAndPrintAdjustment.DecodeOfEncode | src/LineSettingsAndPrintAdjustment.cs:80-111 | as written, every field reads back except the encoder type, which becomes the print mode 0 |
| LineSettingsAndPrintAdjustment.CorrectedRoundTrip | src/LineSettingsAndPrintAdjustment.cs:80-111 | with the encoder type read from split[19], the decoder reads back every record written |
| MessageConditions.CreateParameters | src/MessageConditions.cs:100-196 | accepts exactly program 1-500, message 1-64, scaling 1-10, base X 0-4095, base Y 0-31, spacing 0-4095 and line spacing 0-31; stores base X in place of base Y |
| MessageConditions.BaseYTakesBaseX | src/MessageConditions.cs:157-160 | an accepted base X of 100 comes back as base Y, outside base Y's range |
| MessageConditions.CorrectedCreateParameters | src/MessageConditions.cs:100-196 | the corrected constructor returns only in-range records |
| MessageConditions.CorrectedCreateParametersExact | src/MessageConditions.cs:100-196 | the corrected constructor accepts exactly the in-range arguments and stores each unchanged |
| MessageConditions.SplitParameterString | src/MessageConditions.cs:76-77 | the encoded form splits into the identification code and the twelve numbers, link number 0 at split[11] |
| MessageConditions.DecodeOfSplit | src/MessageConditions.cs:82-98 | split[1..10] read back as the fields, and the lock comes from the index given |
| MessageConditions.DecodeOfEncode | src/MessageConditions.cs:74-98 | as written, every field reads back except the lock, which becomes the link number 0 |
| MessageConditions.CorrectedRoundTrip | src/MessageConditions.cs:74-98 | with the lock read from split[12], the decoder reads back every record written |
| PrintCharacterString.CreateSetCommandParameters | src/PrintCharacterString.cs:64-107 | accepts exactly program 1-500, message 1-64 and data of at most 999 UTF-16 code units, stored unchanged |
| PrintCharacterString.CreateRequestCommandParameters | src/PrintCharacterString.cs:109-141 | accepts exactly program 1-500 and message 1-64; format and code pass through |
| PrintCharacterString.SetCommandLayout | src/PrintCharacterString.cs:25-26 | the set command is program, message, character code as its integer, then the data |
| PrintCharacterString.ResponseExtendsRequest | src/PrintCharacterString.cs:35-47 | the response writes the request's four fields and then the data |
| PrintCharacterString.ResponseOfSplit | src/PrintCharacterString.cs:52-62 | a reply holding the fields at split[1..5] decodes to the record |
| PrintCharacterString.ResponseRoundTrip | src/PrintCharacterString.cs:46-62 | the decoder reads back the response record when its data holds no comma |
| PrintCharacterString.CommaInDataTruncates | src/PrintCharacterString.cs:46-62 | with a comma in the data, the decoder keeps only the part before the first comma |
| ExpirationPeriod.CreateParameters | src/ExpirationPeriod.cs:42-130 | accepts exactly program 0-500, period 0-50, year, month, hour and minute -99..99 and day -1999..1999; stores the values unchanged |
| ExpirationPeriod.DecodeOfSplit | src/ExpirationPeriod.cs:28-40 | a reply holding the fields at split[1..7] decodes to the record |
| ExpirationPeriod.RoundTrip | src/ExpirationPeriod.cs:22-40 | the decoder reads back every record written, negative offsets included |
| Time.CreateParameters | src/Time.cs:46-122 | accepts exactly year 0-99, month 1-12, day 1-31, hour 0-23, minute 0-59 and second 0-59, with no check of the day against the month |
| Time.ThirtyFirstOfFebruaryAccepted | src/Time.cs:79-86 | the 31st of February is accepted |
| Time.DecodeOfSplit | src/Time.cs:33-44 | a reply holding the fields at split[2..7] decodes to the record |
| Time.DecodeOfEncodeFails | src/Time.cs:27-44 | the encoder writes split[1..6] and the decoder reads split[2..7], so the encoded form lacks field 7 |
| Time.ShiftedRoundTrip | src/Time.cs:27-44 | behind one extra field, the decoder reads back what the encoder wrote |
| ShiftTime.CreateParameters | src/ShiftTime.cs:41-72 | accepts exactly hour 18-32 and minute 0-59, the hour checked first; the condition passes through |
| ShiftTime.RoundTrip | src/ShiftTime.cs:25-39 | the decoder reads back every record written |
| Wire.Utf16LengthCounts | src/Barcode.cs:266 | `.Length` is the number of characters plus one for each character outside the Basic Multilingual Plane |
| Wire.Utf16LengthOfBmp | src/Barcode.cs:266 | within the Basic Multilingual Plane `.Length` is the character count |
| Wire.Utf16LengthOfSupplementary | src/Barcode.cs:266 | a string of characters outside the Basic Multilingual Plane has twice as many code units as characters |
| Wire.SplitPrefixed | src/Barcode.cs:93 | splitting an identification code followed by comma-prefixed comma-free fields gives back the code and the fields |
| Wire.ParseIntOfIntToString | src/Barcode.cs:96 | int.Parse reads back every Int32 as interpolation writes it |
| Commands.EntryFields | src/Commands.cs:310-331 | two fields per entry: message number, then string |
| Commands.AsciiEntriesOk | src/Commands.cs:310-331 | the entries succeed exactly when every message number is 1-64 and the running total of the strings' UTF-16 code units stays within 999, and then write ",msg,data" per entry in order |
| Commands.AsciiCodeParameters | src/Commands.cs:290-340 | succeeds exactly for program 1-500, at most 64 entries and valid entries; program checked first, then the entry count |
| Commands.SetPrintCharacterStringAsciiCode | src/Commands.cs:290-340 | the builder's loop gives exactly AsciiCodeParameters |
| Commands.AsciiCodeLayout | src/Commands.cs:290-340 | with comma-free strings, the printer splits the command into the program number and the entries in input order |
| Commands.ChangeCurrentCharacterStringParameters | src/Commands.cs:343-376 | succeeds exactly for message 1-64 and data whose UTF-16 code units are within the cap of its code (ASCII and Latin-9 240, UTF-8 80, GB2312 and Shift-JIS 120); "request at time of setting" is always refused |
| Commands.ChangeCurrentCharacterStringLayout | src/Commands.cs:343-376 | message and code come first, and the string runs to the end of the command |
| Commands.RequestPrintResultParameters | src/Commands.cs:406-429 | succeeds exactly for message 1-64 and a code other than "request at time of setting" |
| Commands.PrintResultFromResponseString | src/Commands.cs:430-445 | succeeds exactly when split[1] and split[2] parse, and then the triple is the parsed split[1], the parsed split[2] and split[3] |
| Commands.PrintResultRoundTrip | src/Commands.cs:406-445 | a print-result reply reads back as the triple written, when its string holds no comma |
| Commands.ChangedStringReportedBack | src/Commands.cs:343-445 | every string the change command accepts for a print-result code reads back through the print-result reply |
| Commands.InitializeLineSettingsParameters | src/Commands.cs:129-142 | fails exactly for an unparsable string other than ALL and CMN; ALL and CMN are sent as field 1; a parsed number is sent exactly when it is 1-500, otherwise the parameter is empty |
| Commands.InitializeLineSettingsOmitsOutOfRange | src/Commands.cs:135-141 | setting number 600 is left out of the command without an error |
| Commands.CorrectedInitializeLineSettingsParameters | src/Commands.cs:129-142 | the corrected builder accepts exactly ALL, CMN and 1-500, and sends the number |
| Commands.CorrectedInitializeLineSettingsSendsNumber | src/Commands.cs:129-142 | the corrected builder agrees with the library wherever the library sends a number, and wherever the corrected builder accepts; an accepted number reaches the printer as field 1 |
| Commands.RequestEncodedCharactersParameters | src/Commands.cs:1396-1413 | succeeds exactly for 1-10, writing the number and then a space before the character code |
| Commands.RequestEncodedCharactersReadBack | src/Commands.cs:1022-1031 | both numbers read back, the space before the code trimmed by int.Parse |
| Commands.InitializeEncodedCharactersParameters | src/Commands.cs:1433-1452 | succeeds exactly for "AL" or a number 1-10, writing the type's token then the number; an unparsable other string is a format error |
| EncodedCharacters.BaseParameterStringOf | src/EncodedCharacters.cs:134-150 | through the base record type a flat record writes its whole text, while a shift-code record writes only its header, which is shorter exactly when it has divisions |
| Commands.SetEncodedCharactersCommand | src/Commands.cs:1390-1394 | fails only for the catch-all type; a flat record is sent whole behind its type's set code, a shift-code record with its header only |
| Commands.SetShiftCodeEncodedCharactersCommand | src/Commands.cs:1352-1355 | "RS", the header and every division's start time and string |
| Commands.SetEncodedCharactersDropsDivisions | src/Commands.cs:1352-1394 | a shift-code record sent through SetEncodedCharacters goes out as "RS" and its header, the same as through SetShiftCodeEncodedCharacters exactly when it has no divisions |
| Commands.InitializeEncodedCharactersReadBack | src/Commands.cs:1433-1452 | the type reads back from its token and the number as sent |
| Commands.RequestCounterConditionsParameters | src/Commands.cs:470-509 | succeeds exactly for program 0-500 and a counter A-J or 1-9, with no L |
| Commands.InitializeCounterConditionsParameters | src/Commands.cs:511-538 | succeeds exactly when the counter records' program and counter checks pass |
| Commands.RequestCounterWithinCounterDomain | src/Commands.cs:486-487 | every counter the request accepts is one the counter records accept, and is sent as field 2 |
| Commands.CounterLOnlyOutsideRequest | src/Commands.cs:486-528 | counter L is refused by the request but accepted by initialisation and by the counter records |
| Commands.FirstStatusWithCode | src/Commands.cs:55-56 | a found status is in the catalogue with the code asked for; none only when no status has it |
| Commands.FirstStatusIsFirst | src/Commands.cs:55-56 | with duplicate codes, the lookup gives the first entry with that code |
| Commands.StatusesFromOk | src/Commands.cs:52-58 | the status loop succeeds exactly when every visited field parses to a catalogued code, and then gives their entries in order |
| Commands.StatusesFromFirstFault | src/Commands.cs:52-58 | the first bad field decides the exception |
| Commands.ErrorStatusesSlots | src/Commands.cs:50-59 | split.Length - 1 slots; slot i-1 holds split[i]'s entry for 1 <= i < split.Length - 2, and the later slots stay unset |
| Commands.RequestErrorStatus | src/Commands.cs:35-65 | an error reply gives an empty array and the error; a normal reply gives the parsed slots; no reply gives an empty array |
| Commands.ParseErrorStatuses | src/Commands.cs:50-59 | the loop filling the array gives exactly the slots of the split reply |
| Commands.ErrorStatusesOfCodes | src/Commands.cs:35-65 | a reply of catalogued codes followed by two more fields gives each code's entry in order, and two unset slots for the last two fields |

## Left out

- TCP client, connect and read/write timeouts: I/O. The stream is a finite byte sequence, and a read of zero bytes is its end.
- The ASCII decoder: one byte is one character, bytes above 0x7F become '?'.
- Console logging and the rethrow in catch blocks: they change no result.
- Checksum mode and the communication buffer: they are carried in the connection but never computed. The serial parity is carried, but its enum's file is not part of this model, so only its default member, None, is named.
- Serial transport: the library does not implement it, and the model fails with not implemented before any I/O.
- Classify: `StartsWith("ER")` runs under the current culture. It is modelled as the ICU and NLS comparisons treat the C0 and C1 control characters, which carry no weight and are skipped. Other code points of no weight (format characters such as U+200B), combining marks after "ER", and the ordinal result of invariant-globalization mode are not modelled.
- `IPAddress.Parse`: a foreign call. The address is kept as a string.
- The error-status and system-status catalogues (src/ErrorStatuses.cs, src/SystemStatuses.cs): bulk constant data. The lookup is over a catalogue parameter, which may hold duplicate codes.
- RequestSystemStatus, the one-line SendCommand wrappers in src/Commands.cs, and the builders there that repeat a parameter record's checks inline (such as SetCurrentBarcodeCharacterStringInOperation, src/Commands.cs:819-844): the modelled builders give the parameter string each command sends, not the transaction around it. The one wrapper whose dispatch changes what is sent, SetEncodedCharacters, is modelled.
- The `ErrorResponse` formatting string (src/ErrorResponse.cs): text only.
- `Enum.Parse` by member name for enums written as integers: their member names are not modelled, so such a field reads only as a number. By-name parsing is modelled for the two counter timing enums, which the encoder writes by name.
- A C# enum value outside its declared members, for the enums that are datatypes (barcode, 2D code and encoded types, delimiter): these cannot be formed, so the token maps' default throw is not modelled.
- The current culture's number format: the source passes no culture when it interpolates or parses an integer. The model assumes one whose negative sign is '-'. Under a culture that uses U+2212 instead (sv-SE under ICU, for example), a negative year or print count is written with a sign that the ASCII encoder sends as '?'. That case is not modelled.
- Trailing NUL characters, which .NET's `int.Parse` accepts after the number: `ParseSigned` refuses them.
- Overflow in `int.Parse`: it is merged into the format error, where .NET raises a distinct OverflowException.
- Commands.RequestErrorStatus: the library returns an `ErrorStatus[]` whose unfilled slots are unset: null, or the default value if ErrorStatus is a struct (its declaration is not part of this model). The model returns a sequence of options, with `None` for an unset slot.
- EncodedCharacters.ValidateEncodedCharactersParameters: the copy of the strings that the library builds and discards is not modelled.
- Commands.AsciiCodeParameters: states which check fails first only for the program number and the entry count. Among the entries it states success, not which entry's fault is reported.
- Titles, data and contents containing commas: the round trips exclude them, because Split cannot recover them. The truncation they cause is stated separately, for barcode contents and print-character data.

## Findings

| source | as written | input that shows it | evidently intended | confidence | as-written member | corrected member |
|---|---|---|---|---|---|---|
| src/Command.cs:61-112 | under ETX framing the reply read keeps its STX and ETX; the culture-sensitive "ER" test skips the STX, but the error code is parsed with the ETX still on it | the ETX-framed error reply "ER,FZ,22" ends in a format exception from int.Parse("22\x03") instead of the registered error 22 | the reply classified and parsed inside the frame | not executed | Command.ErrorReplyFailsUnderETX | Command.ErrorReplyClassifiedFramed |
| src/EncodedCharacters.cs:251-265 | the flat decoder's loop stops one short, so the last slot stays null | any flat record with one string decodes with that string unset | every slot filled | not executed | EncodedCharactersRoundTrip.FlatDecodeOfEncode | EncodedCharactersRoundTrip.CorrectedFlatRoundTrip |
| src/EncodedCharacters.cs:435-450 | the validator checks all strings but the last | one string of eleven characters, "ABCDEFGHIJK", passes | every string checked | not executed | EncodedCharactersRoundTrip.LastStringEscapesCheck | EncodedCharactersRoundTrip.CorrectedValidationAccepts |
| src/EncodedCharacters.cs:237-243 | the shift-code decoder advances its index twice per pass but fills one slot per pass | two divisions make the constructor read a null string; one division comes back with an extra (0, null) | one division per pair of fields | not executed | EncodedCharactersRoundTrip.ShiftRoundTripAsWritten | EncodedCharactersRoundTrip.CorrectedShiftRoundTrip |
| src/EncodedCharacters.cs:299-316 | the shift-code constructor checks and copies all divisions but the last | one valid division is returned as (0, null) | every division checked and copied | not executed | EncodedCharactersRoundTrip.ShiftConstructorDropsLast | EncodedCharactersRoundTrip.CorrectedShiftCodeAccepts |
| src/LineSettingsAndPrintAdjustment.cs:110 | the encoder type is read from split[18], the print-mode slot | a record with encoder type 1 decodes with encoder type 0 | read from split[19] | not executed | LineSettingsAndPrintAdjustment.DecodeOfEncode | LineSettingsAndPrintAdjustment.CorrectedRoundTrip |
| src/MessageConditions.cs:157-160 | base Y is set from base X | base X 100, base Y 5 gives a record with base Y 100 | the checked base Y stored | not executed | MessageConditions.BaseYTakesBaseX | MessageConditions.CorrectedCreateParametersExact |
| src/MessageConditions.cs:97 | the lock is read from split[11], the link-number slot | a record with lock 1 decodes with lock 0 | read from split[12] | not executed | MessageConditions.DecodeOfEncode | MessageConditions.CorrectedRoundTrip |
| src/Commands.cs:135-141 | a numeric setting outside 1-500 silently omits the parameter | setting number "600" sends FZ with no parameter | the setting refused | not executed | Commands.InitializeLineSettingsOmitsOutOfRange | Commands.CorrectedInitializeLineSettingsSendsNumber |
