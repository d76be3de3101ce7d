# CozyLife transport stack: verification model

A Dafny model of how the CozyLife cloud integration talks to a device, and proofs of what that promises:
local first over one held TCP connection, over the vendor's relay if local fails, with a circuit breaker in between,
a search for the device when it moves, and a metering group that is probed once.

The layers compose, as they do in the integration:

| file | module | models |
|---|---|---|
| Prelude.dfy | Prelude | options and Python dicts (`d.update(e)` included) |
| Framing.dfy | Framing | CRLF framing as a function of the whole stream |
| Decimal.dfy, JsonText.dfy | Decimal, JsonText | decimal numbers; a concrete JSON printer and parser |
| Protocol.dfy | Protocol | sequence numbers, frame builders, `encode`, `decode` |
| Environment.dfy | Environment | everything outside: connections, clocks, datagrams |
| Wire.dfy | Wire | `LineSocket` and its resumable reader |
| Deliveries.dfy | Deliveries | what the peers have heard, as they would split it |
| LocalSteps.dfy, Local.dfy | LocalSteps, Local | one exchange as small steps; the transport class that takes them |
| LocalRuns.dfy | LocalRuns | any number of callers, the lock, and a device, step by step |
| Utf8.dfy, JsonGrammar.dfy, Percent.dfy | Utf8, JsonGrammar, Percent | what the decoders and encoders do, exactly, against the standards they follow |
| RelayCodec.dfy, Cloud.dfy | RelayCodec, Cloud | percent-encoding, relay lines; the relay transport |
| Discovery.dfy, Rediscovering.dfy | Discovery, Rediscovering | the reply stream and its early exit; the transport that follows a moving device |
| Breaker.dfy | Breaker | the circuit breaker alone, over histories of attempts and clock readings |
| Fallback.dfy, Lifetime.dfy | Fallback, Lifetime | the whole client; what any number of its calls makes anybody hear |
| History.dfy | History | the breaker's promises for every client in a state it can reach |
| EndToEnd.dfy | EndToEnd | exactly when a write reaches both the device and the relay |
| Coverage.dfy | Coverage | exactly when one working path is enough |
| Metering.dfy | Metering | the polling coordinator |

The outside world is adversarial. `Environment.Runtime` draws every outcome (a refused connection, how much of a write
gets out, a chunk of any bytes, a read error, silence until the deadline) from sequences of arbitrary content, and
moves the monotonic clock by arbitrary non-negative amounts; the wall clock may go anywhere. The one assumption
about sockets is that a failed `sendall` got some strict prefix out. `None` results stand for `TransportError`.
What a peer hears is what it gets by splitting each connection at CRLF (`Deliveries.Heard`), so a claim that
something is heard at most once is a claim about bytes on connections, not about calls made.
What is still to happen outside is one value (`Environment.Outside`: choices, clocks and replies not used yet), and
every operation is specified as a function of it and of the state before: what is tried, written, heard and returned,
and what is then left to happen (`Local.Expected`, `Cloud.Visited`, `Rediscovering.UseOf`, `Fallback.Served`). So neither
transport may give up, skip a check, leave out a line or stop reading earlier than the code does.
What that function and the frames, lines and packets are is stated once more in the words of the protocols, with literal
names, commands and bytes and without the model's own helpers: `Local.ExpectedExactly`, `Cloud.ExpectedExactly`,
`Protocol.SetFrameSays`, `Fallback.ServedSays`, `RelayCodec.PublicationSpelled`, `JsonGrammar.DecodeExactly` and others.

Concurrent callers take the steps of `LocalSteps` one at a time (`LocalRuns.Next`), with the lock as part of the state;
`LocalTransport.Exchange` is proved to be a run of the same steps. A call there draws its number from the counter they
share with everything else, on any clock; that its frame is proper and its number new is part of the invariant.
`FallbackClient`, `RediscoveringLocalTransport` and `new_sn` take no lock in the code and are taken as atomic here.

Where the code does less than its prose says, the model follows the code:

- A read error while waiting leaves the connection held (wire.py:66-67, local.py:146-149); only the deadline and the end of the stream drop it. `LocalSteps.JobEffect` says so exactly, and reply correlation holds all the same.
- "Must never be sent twice" (wire.py:82, fallback.py:112-114) holds per path, not end to end: a write without a readable local reply is sent again over the relay (fallback.py:127-133). `EndToEnd.WrittenTwice` says exactly when, in terms of what is there before the call; `EndToEnd.OnceEndToEnd` gives the guard, no relay or local not tried, and a run that breaks the promise for every case the guard leaves out; `EndToEnd.WriteTwice` drives a client through one.
- "Covered whenever at least one path works" (README.md:68) fails while the circuit is open: `Breaker.CoverageExact` gives the exact condition over histories, `Breaker.OnePathIsNotEnough` an instance, `History.ClientCovered` the condition for the calls of a client. `Coverage.CoveredExactly` gives the guard, no relay or local not skipped, and `Coverage.LeaveUncovered` drives a client to a call that fails while local would have answered. What a skipped local would have done is taken from a world of its own, not from the events that the relay meets instead.
- "Probed exactly once" (const.py:62) is one call of the client's `query`; the frame may be heard at the old address, at the new one and through the relay. `Metering.ProbedOnce` bounds what is heard.

`dafny verify dfyconfig.toml` checks the whole project.

## Model

| member | source | states |
|---|---|---|
| Framing.Reassemble | custom_components/cozylife_cloud/api/wire.py:51-55 | Cutting a byte stream at CRLF loses, reorders and invents nothing: lines and remainder put back together are the stream, and no terminator is left in the remainder. |
| Framing.SplitAppend | custom_components/cozylife_cloud/api/wire.py:31-33 | Splitting piece by piece, keeping only the unfinished rest, gives the same lines as splitting the whole stream, even with CR and LF in different pieces. |
| Framing.SplitJoin | custom_components/cozylife_cloud/api/wire.py:51-55 | A stream written line by line is read back as exactly those lines. |
| Framing.SplitExactly | custom_components/cozylife_cloud/api/wire.py:51-55 | Lines and remainder of a stream are the one way to write it with the bytes 13 and 10 after each line such that no 13 is followed by a 10 inside any of them. |
| Wire.FramingRefinement | custom_components/cozylife_cloud/api/wire.py:43-71 | For every chunking and every pattern of abandoning and resuming `lines`: lines yielded, then the non-empty lines still in the buffer, are the non-empty CRLF split of all bytes received; the bytes cut off and the buffer are the stream. |
| Wire.ResumeAccounts | custom_components/cozylife_cloud/api/wire.py:51-71 | Over any number of resumptions, bytes received are the lines cut off followed by the buffer, and the lines yielded are the non-empty ones cut off. |
| Wire.ReadsExactly | custom_components/cozylife_cloud/api/wire.py:57-71 | What there is to read until a deadline, in closed form: the chunks before the first read that starts too late, by the clock readings so far, or brings in none; reading ends with an error exactly if that read is in time and raises one. |
| Wire.LineSocket.NextLine | custom_components/cozylife_cloud/api/wire.py:51-71 | One resumption of the generator takes exactly the turns of the reading loop, and stops at the deadline. It yields a line exactly if one is still to come before then, buffered or arriving, and then the first; otherwise it says whether the stream ended or reading failed, with no complete line buffered. What is left to happen outside is exactly what was not read. |
| Wire.LineSocket.Turn | custom_components/cozylife_cloud/api/wire.py:51-71 | One turn cuts a line off if there is one; otherwise it stops if the deadline has passed and reads if it has not. What was received stays accounted for, and so does what is still to come. |
| Wire.LineSocket.Receive | custom_components/cozylife_cloud/api/wire.py:57-71 | `recv` happens only while no complete line is buffered (its precondition), and whatever arrives goes to the end of the buffer. |
| Wire.LineSocket.PopLine | custom_components/cozylife_cloud/api/wire.py:52-53 | The line before the first terminator goes out, what follows the terminator stays. |
| Wire.LineSocket.PeerHasClosed | custom_components/cozylife_cloud/api/wire.py:73-99 | Reports a hang-up exactly if nothing is buffered and a peek shows one. |
| Wire.LineSocket.SendLine | custom_components/cozylife_cloud/api/wire.py:35-41 | Succeeds exactly if the whole packet went out; a failure leaves a strict prefix on the connection. |
| Protocol.SnClosedForm | custom_components/cozylife_cloud/api/protocol.py:33-48 | The n-th sequence number is the maximum of n and c_i + (n - i) over the clock readings c_i so far, for any clock. |
| Protocol.SnsDistinct | custom_components/cozylife_cloud/api/protocol.py:33-48 | Numbers strictly increase whatever the clock does, so no number text is issued twice. |
| Environment.Runtime.NewSn | custom_components/cozylife_cloud/api/protocol.py:33-48 | The counter moves as the closed form says, on the clock reading due next, and the text is its decimal form. |
| Decimal.IntTextRoundTrip | custom_components/cozylife_cloud/api/protocol.py:69-74 | `int(str(n)) == n` for every integer. |
| Decimal.IntTextSays | custom_components/cozylife_cloud/api/protocol.py:48 | The decimal text of a number is spelled digit by digit, with a minus for a negative one. |
| Decimal.ReadsAnySpelling | custom_components/cozylife_cloud/api/protocol.py:74 | `int` reads every spelling of a number: blanks around it, a sign or none, digits with single underscores between them. |
| Decimal.IntTextInjective | custom_components/cozylife_cloud/api/protocol.py:44-48 | Different integers have different decimal texts. |
| JsonText.ValueRoundTrip | custom_components/cozylife_cloud/api/protocol.py:78-102 | Any value without repeated keys, printed compactly with ASCII escapes anywhere in a document, is parsed back as itself, with whatever follows left over. |
| JsonText.PrintIsTidy | custom_components/cozylife_cloud/api/protocol.py:81 | Printed values are printable ASCII: no CR, no LF, nothing that `strip` would remove. |
| JsonText.ParsedIsWellFormed | custom_components/cozylife_cloud/api/protocol.py:97-102 | Whatever text is parsed, the result repeats no key at any depth. |
| JsonGrammar.ParseExactly | custom_components/cozylife_cloud/api/protocol.py:97-102 | A string parses to a value exactly if it is a text of that value by the grammar of RFC 8259, any white space, escapes and repeated keys included, with blanks around it. |
| JsonGrammar.PrintExactly | custom_components/cozylife_cloud/api/protocol.py:81 | The printed text of a value is the one without white space, with exactly the escapes that `json.dumps` makes. |
| Utf8.FromBytesExactly | custom_components/cozylife_cloud/api/protocol.py:91-95 | Bytes decode to a text exactly if they are its UTF-8 encoding. |
| Protocol.Bare | custom_components/cozylife_cloud/api/protocol.py:78-81 | The encoded frame before its terminator is printable ASCII and not empty. |
| Protocol.EncodedIsOneLine | custom_components/cozylife_cloud/api/protocol.py:78-81 | An encoded frame holds exactly one CRLF, at its end: a receiver gets that one line and keeps nothing. |
| Protocol.DecodeEncode | custom_components/cozylife_cloud/api/protocol.py:78-102 | `decode(encode(frame)) == frame` for every frame without repeated keys. |
| Protocol.DecodeBare | custom_components/cozylife_cloud/api/protocol.py:84-102 | The line a receiver cuts off decodes to the frame that was encoded. |
| Protocol.BareInjective | custom_components/cozylife_cloud/api/protocol.py:78-81 | Different frames never look alike on the wire. |
| JsonGrammar.DecodeExactly | custom_components/cozylife_cloud/api/protocol.py:84-102 | Bytes are a frame exactly if they are, in UTF-8, a text of an object with the frame's fields, blanks around it allowed. |
| Protocol.QueryFrameWellFormed | custom_components/cozylife_cloud/api/protocol.py:51-59 | A query frame for any attribute list is a frame the round trips hold for, and carries its number. |
| Protocol.QueryFrameSays | custom_components/cozylife_cloud/api/protocol.py:51-59 | A query frame is exactly `pv` 0, `cmd` 2, its number, and under `msg` the attributes asked for, or 0 if there are none. |
| Protocol.SetFrameWellFormed | custom_components/cozylife_cloud/api/protocol.py:62-75 | So is a write frame for any payload whose keys `int` reads, integers and texts mixed and colliding, blanks, signs and underscores included. |
| Protocol.SetFrameSays | custom_components/cozylife_cloud/api/protocol.py:62-75 | A write frame, keyed by integers, texts or both, colliding or not: `pv` 0, `cmd` 3, its number; `data` gives every text the value of the last key that reads so and no other text a value; `attr` is the integers that the keys of `data` denote, in order. |
| Protocol.SetFrameMirrorsPayload | custom_components/cozylife_cloud/api/protocol.py:69-74 | Keyed by distinct integers, `data` holds exactly the payload under decimal keys and `attr` lists exactly the same datapoints in the same order. |
| Protocol.ReadingsDistinct | custom_components/cozylife_cloud/api/local.py:75-79 | The data map read out of any decoded reply has one value per datapoint. |
| Protocol.ReadingsSay | custom_components/cozylife_cloud/api/local.py:74-79 | The readings of a query are exactly the map under `data` in the reply's `msg`; there are none if there is no such map. |
| Protocol.VerdictSays | custom_components/cozylife_cloud/api/local.py:89-90 | A write counts as accepted exactly if the reply's `res` is 0 (or `false`, which equals 0), and as refused otherwise. |
| LocalSteps.RunKeeps | custom_components/cozylife_cloud/api/local.py:97-153 | At every step of every exchange, whatever fails: only the held connection is open, its input is accounted for, unfinished lines are strict prefixes of this frame, and the peers have heard this frame once after its write succeeded and not before. |
| LocalSteps.JobEffect | custom_components/cozylife_cloud/api/local.py:97-153 | A finished exchange or `close` leaves the transport at rest; the frame was heard exactly once if its write succeeded and never otherwise; a connection stays held exactly after a reply or a read error. |
| LocalSteps.OpenIsHeld | custom_components/cozylife_cloud/api/local.py:92-95 | Connections opened minus connections closed is one if one is held and zero otherwise. |
| Local.LocalTransport.Exchange | custom_components/cozylife_cloud/api/local.py:97-128 | The method is a run of those steps for every order of events, and it comes to what the outside world decided: a hung-up peer or a failed write on the held connection leads to one new connection, and after a complete write the first line to come with the number under `sn` is the reply. |
| Local.ExpectedExactly | custom_components/cozylife_cloud/api/local.py:97-153 | What an exchange comes to, for every frame, held buffer and outside world: unreachable if its packet does not go out whole, over the held connection or a new one; otherwise a line is the reply exactly if it is the first, buffered or in time, that decodes to a frame with this `sn`; without one a read error or no answer; the connection is kept exactly after a reply or a read error. |
| Local.LocalTransport.ExchangeHeld | custom_components/cozylife_cloud/api/local.py:108-120 | Over the held connection: replaced exactly if the peer had hung up or the write failed; after a complete write there is no way back to sending. |
| Local.LocalTransport.ExchangeAnew | custom_components/cozylife_cloud/api/local.py:122-128 | Over a new connection: no answer to expect without a connection and a complete write; a failed write drops it and is not tried again. |
| Local.LocalTransport.AwaitReply | custom_components/cozylife_cloud/api/local.py:130-153 | The reply is the first line with the number among all that is buffered or arrives before reading stops; without one, the deadline or the end of the stream drops the connection and a read error does not. |
| Local.LocalTransport.TrySend | custom_components/cozylife_cloud/api/local.py:113-127 | Succeeds exactly if the whole packet goes out; a failed write drops the connection. |
| Local.LocalTransport.Drop | custom_components/cozylife_cloud/api/local.py:92-95 | The held connection is closed and forgotten. |
| Local.LocalTransport.Close | custom_components/cozylife_cloud/api/local.py:65-69 | Afterwards no connection is open, and nobody heard anything. |
| Local.LocalTransport.Query | custom_components/cozylife_cloud/api/local.py:71-79 | One exchange of a fresh query frame; the result is exactly the map under `data` in the reply's `msg`, and an error if there is no reply or no such map. |
| Local.LocalTransport.Control | custom_components/cozylife_cloud/api/local.py:81-90 | One exchange of a fresh write frame; the result is whether the reply with its number has `res` equal to 0, and an error exactly if there is no reply. |
| LocalRuns.AtMostOnce | custom_components/cozylife_cloud/api/local.py:100-128 | With any number of callers interleaving step by step and any failures, the device hears the frame of each call at most once over all connections ever opened, and once the call has returned exactly once if the write succeeded and never otherwise. |
| LocalRuns.Serialisable | custom_components/cozylife_cloud/api/local.py:38-41 | Every interleaving of `query`, `control` and `close` is equivalent to whole exchanges in lock order: same connections, same buffer, same results. |
| LocalRuns.RealTime | custom_components/cozylife_cloud/api/local.py:108-128 | That order respects real time: a call that returned before another was made comes first. |
| LocalRuns.WholePackets | custom_components/cozylife_cloud/api/local.py:38-41 | Packets never interleave: any connection carries whole packets of the calls made and then at most a strict prefix of one. |
| LocalRuns.OneConnection | custom_components/cozylife_cloud/api/local.py:92-128 | In every reachable state at most one connection is open, the one held; with the lock free no part of a frame is outstanding on it. |
| LocalRuns.ReplyCorrelation | custom_components/cozylife_cloud/api/local.py:130-144 | With a device that answers only frames it heard, and whose own reports do not carry this call's number under `sn`, the line a call returns decodes to a frame with that number and was sent in answer to that very frame, never to an earlier one left in the buffer or on a kept connection. |
| LocalRuns.InvokeNumbered | custom_components/cozylife_cloud/api/protocol.py:33-48 | Whatever the clock shows, the frame of a call is well-formed, carries the number drawn for it, and no call before has that number. |
| RelayCodec.QuoteRoundTrip | custom_components/cozylife_cloud/api/cloud.py:122-124 | `unquote(quote(s)) == s` for every text, non-ASCII included. |
| RelayCodec.QuotedIsSafe | custom_components/cozylife_cloud/api/cloud.py:122-124 | Quoted text holds only unreserved characters and percent signs. |
| Percent.QuoteSays | custom_components/cozylife_cloud/api/cloud.py:122-124 | Letters, digits, `-`, `.`, `_` and `~` stay; any other byte becomes `%` and two upper-case hexadecimal digits. |
| Percent.AnySpellingUnquoted | custom_components/cozylife_cloud/api/cloud.py:165 | However a text is percent-encoded, with digits of either case, it is decoded to the bytes meant, and those as UTF-8 with replacement characters. |
| Percent.UnescapedStays | custom_components/cozylife_cloud/api/cloud.py:165 | A text without escapes stays as it is, `+`, a lone `%` and characters beyond ASCII included. |
| Protocol.TextStays | custom_components/cozylife_cloud/api/cloud.py:43 | Decoding with replacement characters changes nothing in valid UTF-8. |
| Utf8.ReplacedExactly | custom_components/cozylife_cloud/api/cloud.py:43 | Where no character is, one U+FFFD replaces the longest beginning of a character, or a single byte that begins none. |
| RelayCodec.ParseLine | custom_components/cozylife_cloud/api/cloud.py:35-47 | The loop computes the specified field map of any bytes: decoded with replacement characters, split at `&`, then at the first `=`; parts without one are skipped and the last of a repeated key counts. |
| Percent.FieldsSay | custom_components/cozylife_cloud/api/cloud.py:35-47 | The value of a key is what follows it and the first `=` in the last part that starts so, splitting the decoded line at every `&`; a key that starts no part has none. |
| RelayCodec.FieldsRoundTrip | custom_components/cozylife_cloud/api/cloud.py:35-47 | Composing any field map of texts without `&` and line breaks (nor `=` in keys) and parsing it gives the same map in the same order, literal `+`, `%` and `=` in values included. |
| RelayCodec.ComposedIsOneLine | custom_components/cozylife_cloud/api/cloud.py:108-112 | A composed line has no terminator inside. |
| RelayCodec.SubscriptionSpelled | custom_components/cozylife_cloud/api/cloud.py:108-120 | The subscription, letter by letter. |
| RelayCodec.PublicationSpelled | custom_components/cozylife_cloud/api/cloud.py:108-129 | The publication, letter by letter, around the quoted frame. |
| RelayCodec.PublishCarries | custom_components/cozylife_cloud/api/cloud.py:121-129 | The publish line of any frame, for any device with plain id and key, is such a map and wraps that frame. |
| RelayCodec.RelayRoundTrip | custom_components/cozylife_cloud/api/cloud.py:108-165 | Any sequence of frames, encoded, quoted, composed into lines and sent in any chunking, read with any pattern of interruptions, comes out as the same fields and the same frames in order; all of them once the stream is read to its end. |
| Cloud.ReportComesFirst | custom_components/cozylife_cloud/api/cloud.py:131-142 | A report settles an exchange exactly if it is the first whose `topic` is ours and whose `message` holds a frame with our `sn`, and no receipt with `cmd=publish` and `num=0` has come by then. |
| Cloud.JudgeExactly | custom_components/cozylife_cloud/api/cloud.py:131-165 | A line ends the exchange without a report exactly if its `cmd` is `publish` and its `num` is `0`; it is the report exactly if it is not that, is addressed to our topic and holds a frame with our `sn`. |
| Cloud.ReceiptsIgnored | custom_components/cozylife_cloud/api/cloud.py:148-155 | The ordinary receipt, with any other `num`, is passed over. |
| Cloud.NoReportExactly | custom_components/cozylife_cloud/api/cloud.py:131-146 | An exchange gets no report exactly if before or with each one that comes there is a receipt with `num=0`. |
| Cloud.ExpectedExactly | custom_components/cozylife_cloud/api/cloud.py:114-146 | What an exchange comes to, for every frame and outside world: it connects if it is let; a report is its result exactly if both lines get out whole and, of the lines that come within the timeout counted from the start, this report settles it. |
| Cloud.SubscribesFirst | custom_components/cozylife_cloud/api/cloud.py:119-129 | What the relay reads off a connection is a subscription to our report topic and then our frame, each whole or not at all, the frame never without the subscription. |
| Cloud.VisitHeard | custom_components/cozylife_cloud/api/cloud.py:114-146 | A call makes the relay hear at most one subscription and one publication, in that order, and nobody else anything; a result needs both. |
| Cloud.PublishedExactly | custom_components/cozylife_cloud/api/cloud.py:114-129 | The relay hears the publication of a call exactly once if a connection is made and both writes go through, and otherwise never. |
| Cloud.ReportAnswers | custom_components/cozylife_cloud/api/cloud.py:131-142 | With a relay that forwards answers to frames it was given, and anything else under foreign numbers, what a call returns was sent in answer to that very call's publication. |
| Cloud.LeavesNothingOpen | custom_components/cozylife_cloud/api/cloud.py:119 | A visit uses at most one new connection, touches no other, and leaves none of its own open. |
| Cloud.CloudTransport.SendTwo | custom_components/cozylife_cloud/api/cloud.py:120-129 | The frame goes out only after the whole subscription, and then it does; what went out is exactly the prefix of the two that the outside world let through. |
| Cloud.CloudTransport.AwaitReport | custom_components/cozylife_cloud/api/cloud.py:131-146 | The result is what the first decisive line says, among everything received and among everything that arrives before reading stops. |
| Cloud.CloudTransport.Exchange | custom_components/cozylife_cloud/api/cloud.py:114-146 | One connection, made exactly if there is one to be had and closed on every exit; both lines go out as far as the outside world lets them; nothing is read before they are out; the result is what the first decisive line says before the deadline; and what is left to happen outside is exactly what was not used. |
| Cloud.CloudTransport.Query | custom_components/cozylife_cloud/api/cloud.py:92-100 | That exchange of a fresh query frame, the subscription and the publication included whether or not a report comes; the result is exactly the map under `data` in the report's `msg`. |
| Cloud.CloudTransport.Control | custom_components/cozylife_cloud/api/cloud.py:102-106 | That exchange of a fresh write frame, published whether or not a report comes; the result is whether the report's `res` is 0, and an error exactly if there is no report. |
| Discovery.Listener.Next | custom_components/cozylife_cloud/api/discovery.py:88-105 | One resumption yields the next device not seen before and leaves the rest of the enumeration. |
| Discovery.Discover | custom_components/cozylife_cloud/api/discovery.py:110-122 | Draining the stream gives the whole enumeration. |
| Discovery.FindDeviceIp | custom_components/cozylife_cloud/api/discovery.py:125-142 | Leaving at the first match gives the same address as looking the device up in what `discover` would return for the same packets, or nothing if it is not there. |
| Discovery.ReplySays | custom_components/cozylife_cloud/api/discovery.py:145-169 | A packet names a device exactly if it is a frame whose `msg` has a `did`; its id is that, its address the `ip` there or else where the packet came from, and `mac`, `pid`, `sv` and `hv` are kept. |
| Discovery.ListsFirstReplies | custom_components/cozylife_cloud/api/discovery.py:76-105 | The enumeration is the list of the first usable reply of each device, in the order these replies arrived. |
| Discovery.ListedOnce | custom_components/cozylife_cloud/api/discovery.py:102-105 | No device is listed twice. |
| Discovery.MalformedIgnored | custom_components/cozylife_cloud/api/discovery.py:145-158 | A packet that is no usable reply changes nothing, wherever it arrives. |
| Discovery.LookupIsFirstAddress | custom_components/cozylife_cloud/api/discovery.py:139-142 | Looking a device up finds the address of its first usable reply. |
| Breaker.RefinesHistory | custom_components/cozylife_cloud/api/fallback.py:155-194 | After any requests, counter and timestamp are exactly a function of the past local attempts: the trailing run of failures, and the stamp of the failure that made up the limit or of the last probe since. |
| Breaker.OpenExactly | custom_components/cozylife_cloud/api/fallback.py:155-194 | The counter is the number of trailing failed attempts, and the circuit is open exactly if there is a cloud path and that number has reached the threshold, or one for a threshold below one. |
| Breaker.ProbeRate | custom_components/cozylife_cloud/api/fallback.py:163-186 | With the circuit open since t0 and no success since, the k-th local attempt is stamped t0 + k * interval or later, whatever the request rate; the circuit stays open. |
| Breaker.ProbeCount | custom_components/cozylife_cloud/api/fallback.py:163-186 | So up to time t there are at most floor((t - t0) / interval) attempts. |
| Breaker.OpenedBefore | custom_components/cozylife_cloud/api/fallback.py:163-186 | If no local failure is recorded from time r on, an open circuit carries a stamp before r. |
| Breaker.Recovers | custom_components/cozylife_cloud/api/fallback.py:155-194 | Then every request decided at or after r + interval (and r) is served by local and leaves the circuit closed. |
| Breaker.CoverageExact | README.md:68-69 | A request fails although a path works in exactly one case: local has recovered, the cloud is down, and the last attempts failed, as many as the limit, less than an interval ago. |
| Breaker.OnePathIsNotEnough | README.md:68-69 | With the default settings three failures make such a case: one second later a working local path is not asked. |
| Rediscovering.RediscoveringTransport.constructor | custom_components/cozylife_cloud/api/rediscovering.py:35-56 | Starts with a transport bound to the host, nothing searched and nothing failed. |
| Rediscovering.RediscoveringTransport.Query | custom_components/cozylife_cloud/api/rediscovering.py:82-95 | A search is made exactly if the first try failed and a search is due; a second try exactly if the device was then found at a different address; the result is that of the last try. Tries, numbers, search and address are what the state and the outside world decide, and everything heard was said by the tries. |
| Rediscovering.RediscoveringTransport.Control | custom_components/cozylife_cloud/api/rediscovering.py:97-110 | A write is tried once whatever happens to it; a failure makes a search if one is due, and may move the transport; all of it as the state and the outside world decide. The result is whether the `res` of the reply is 0. |
| Rediscovering.UseSays | custom_components/cozylife_cloud/api/rediscovering.py:82-110 | What a use comes to is what the reply to its last try says: the map under `data` for a query, whether `res` is 0 for a write; and that reply carries the number of that try. |
| Rediscovering.UseFollowsRules | custom_components/cozylife_cloud/api/rediscovering.py:82-145 | Whatever is decided outside: a second try is only for a query, only after a failure and only at another address; numbers are fresh and in order; at most one search, and only after a failed first try. |
| Rediscovering.RediscoveringTransport.Relocate | custom_components/cozylife_cloud/api/rediscovering.py:112-145 | Searches exactly if the minimum interval has passed, and moves exactly to the non-empty address under which the enumeration lists the device; the old connection is closed first. |
| Rediscovering.SearchSays | custom_components/cozylife_cloud/api/rediscovering.py:112-145 | A search is made exactly if there was none or the last was a minimum interval ago or more; it moves the transport exactly to the non-empty address in the first usable reply of the device; the connection is kept exactly if the address stays. |
| Rediscovering.RediscoveringTransport.Replace | custom_components/cozylife_cloud/api/rediscovering.py:141-145 | The old socket is released before the transport is replaced; nobody hears anything. |
| Rediscovering.RediscoveringTransport.Close | custom_components/cozylife_cloud/api/rediscovering.py:71-80 | Afterwards no connection is open. |
| Rediscovering.RediscoveringTransport.ConnectionsConserved | custom_components/cozylife_cloud/api/rediscovering.py:112-145 | In every reachable state the wrapped transport is bound to the current host, and local sockets opened minus closed is one while it holds a connection and zero otherwise, earlier transports included. |
| Rediscovering.RediscoveringTransport.SearchesCounted | custom_components/cozylife_cloud/api/rediscovering.py:121-124 | In every reachable state there are at most floor((now - first) / interval) + 1 searches. |
| Rediscovering.FramesHeard | custom_components/cozylife_cloud/api/rediscovering.py:82-110 | A call makes listeners hear at most one frame per address: at most two for a query, at different hosts, and one for a write. |
| Rediscovering.SearchBound | custom_components/cozylife_cloud/api/rediscovering.py:121-124 | The k-th search is at least k - 1 minimum intervals after the first. |
| Fallback.FallbackClient.ShouldTryLocal | custom_components/cozylife_cloud/api/fallback.py:155-171 | Local is skipped exactly while there is a cloud path, the circuit is open and the interval has not passed; a probe is stamped before it is made. |
| Fallback.FallbackClient.RecordLocalFailure | custom_components/cozylife_cloud/api/fallback.py:173-186 | One more failure; the circuit opens when they reach the threshold, stamped after the failing call. |
| Fallback.FallbackClient.RecordLocalSuccess | custom_components/cozylife_cloud/api/fallback.py:188-194 | Counter and circuit are reset. |
| Fallback.FallbackClient.ViaCloud | custom_components/cozylife_cloud/api/fallback.py:139-153 | One visit to the relay, made and ending as the outside world decides, gives the result and the path noted; the local transport is undisturbed. |
| Fallback.FallbackClient.Settle | custom_components/cozylife_cloud/api/fallback.py:125-137 | A local answer ends the call and resets the breaker; a failure is recorded and passed on to the relay if there is one. |
| Fallback.FallbackClient.Attempt | custom_components/cozylife_cloud/api/fallback.py:119-137 | Local is used exactly if the breaker lets it and the relay exactly if local gave no answer, each as the outside world decides; the breaker moves as its history says; the path noted is the one that answered. |
| Fallback.FallbackClient.Query | custom_components/cozylife_cloud/api/fallback.py:104-107 | That, for a query: the result is exactly the map under `data` in the `msg` of the frame that answered, the relay's if the relay was asked, with one value per datapoint. |
| Fallback.FallbackClient.Control | custom_components/cozylife_cloud/api/fallback.py:109-117 | That, for a write: the result is whether the `res` of the frame that answered is 0; a refusal is returned and not passed on. |
| Fallback.ServedSays | custom_components/cozylife_cloud/api/fallback.py:104-153 | The same of every call, as a statement about what was read from the device or the relay. |
| Fallback.AnsweredExactly | custom_components/cozylife_cloud/api/fallback.py:119-153 | A call is answered exactly if local is tried and would answer, or the relay, if there is one, would. If local is skipped it does not matter what it would have done, in whatever world. |
| Fallback.FallbackClient.Close | custom_components/cozylife_cloud/api/fallback.py:91-102 | Afterwards no connection is open, and nobody heard anything. |
| Fallback.FallbackClient.BreakerExact | custom_components/cozylife_cloud/api/fallback.py:75-77 | In every state a client can reach, counter and timestamp are what its past attempts say, through all its calls. |
| Fallback.FallbackClient.SearchesBounded | custom_components/cozylife_cloud/api/fallback.py:155-186 | In every state a client can reach there are no more searches than local attempts the breaker let through, and no more than one per minimum interval, plus one. |
| History.ClientCovered | README.md:68-69 | A call of a client fails, although local used now or the relay would have answered it, in exactly one case: there is a relay, it would not answer, and the last local attempts failed, as many as the limit, less than an interval ago. For a skipped local this holds for every world it might have met. |
| Coverage.CoveredExactly | README.md:68-69 | A call is answered whenever one path works, in every outside world and from every state before, exactly if there is no relay or the breaker lets local be tried. For every other breaker state, clock reading, wiring and call there is a whole call that fails although local, used at that time, would have answered. |
| Coverage.LeaveUncovered | custom_components/cozylife_cloud/api/fallback.py:119-171 | Any client with a relay, in any state it can reach: when nobody can be reached for a while, the circuit opens, and a call inside the interval fails although local would have answered it then. |
| History.ClientRecovers | custom_components/cozylife_cloud/api/fallback.py:155-194 | If no local failure is recorded from r on, every call of a client decided an interval later or more is answered by local and leaves the circuit closed. |
| History.ClientProbes | custom_components/cozylife_cloud/api/fallback.py:155-186 | With the circuit of a client open since t0 and no success since, local has been used, and the device searched for, at most floor((now - t0) / interval) times since, however many calls came. |
| Fallback.EffectBound | custom_components/cozylife_cloud/api/fallback.py:109-153 | One call makes local listeners hear its frame at most once each, a write at most once in all, and the relay at most one subscription and one publication, only if local was skipped or failed and never after a refusal; nobody hears anything else. |
| EndToEnd.WrittenTwice | custom_components/cozylife_cloud/api/fallback.py:127-133 | The device and the relay both hear one write exactly if, before the call, things stand so: the breaker lets local be tried, the write goes out to the device and no reply comes or reading fails, and in what is then left the relay can be reached and both lines go out to it. |
| EndToEnd.OnceEndToEnd | custom_components/cozylife_cloud/api/fallback.py:119-137 | A write is heard at most once end to end, in every outside world and from every state before, exactly if there is no relay or the breaker does not let local be tried. For every other breaker state, clock reading, wiring and payload there is a whole call in which it is heard twice. |
| EndToEnd.WriteTwice | custom_components/cozylife_cloud/api/fallback.py:109-137 | Any client in any state it can reach, with a relay and with local to be tried: in the outside world prepared here its `control` makes the device hear the write once more and the relay too. |
| Lifetime.NeverTwice | custom_components/cozylife_cloud/api/local.py:100-104 | Over any number of calls, whatever peers, clocks and network do, no frame reaches local listeners twice, different ones included, and none is published to the relay twice. |
| Lifetime.ClientNeverTwice | custom_components/cozylife_cloud/api/fallback.py:104-153 | The same of the connections of every client in a reachable state. |
| Metering.Coordinator.Poll | custom_components/cozylife_cloud/coordinator.py:63-83 | A wildcard query, then the explicit query if it is wanted, through the client; the poll made extends the run of polls, its two calls follow one another, and its outcome is the result. |
| Metering.Coordinator.ProbeMetering | custom_components/cozylife_cloud/coordinator.py:85-105 | The group is supported exactly if the answer holds a value for some datapoint, and then the readings are merged in. |
| Metering.Coordinator.Merge | custom_components/cozylife_cloud/coordinator.py:76-83 | The step of the automaton and the data it leaves. |
| Metering.AskedExactly | custom_components/cozylife_cloud/coordinator.py:63-105 | Over any run of polls: the group, 26 to 29, is asked for by the first poll whose wildcard query succeeds, and by a later one exactly if that first answer held a value for some datapoint; a poll fails exactly if its wildcard query fails. |
| Metering.Overlaid | custom_components/cozylife_cloud/coordinator.py:74-83 | Each successful poll shows its own readings where there are any and the wildcard reply everywhere else. |
| Metering.RunRemembers | custom_components/cozylife_cloud/coordinator.py:76-77 | What the coordinator remembers: nothing before a wildcard query has succeeded, and then 26 to 29 if the first answer held a value for some datapoint, and no datapoints otherwise, an empty answer included. |
| Metering.ProbedOnce | custom_components/cozylife_cloud/const.py:57-63 | Over any run of polls whose probe brings no value for any datapoint, all polls together make local listeners hear a question for 26 to 29 at most twice and the relay at most once; wildcard queries are no such question. |
| Metering.Coordinator.ProbesOnce | custom_components/cozylife_cloud/coordinator.py:85-105 | The same of every coordinator in a state it can reach that has not found the group. |

## Left out

- JsonText.ValueRoundTrip: only integers as numbers; fractions, exponents, `NaN` and infinities are read as malformed here, and so is a lone surrogate escape. Frames built by the integration contain none.
- JsonGrammar.ParseExactly: for the same reason the grammar has no fractions, exponents, `NaN`, infinities and lone surrogate escapes, and neither has JsonGrammar.DecodeExactly.
- JsonText.ParsedIsWellFormed: texts with those are rejected by the model and accepted by the code; Python's limits on digits and recursion depth are not modelled.
- Protocol.SetFrameWellFormed: of the forms of text that `int` reads, decimal digits outside ASCII are not modelled.
- RelayCodec.RelayRoundTrip: device ids and keys are texts without `&`, CR and LF, as the relay's format needs them; the code does not check that.
- Environment.Runtime.SendAll: the strict prefix after a failed write is an assumption about the operating system.
- Wire.LineSocket.NextLine: the clock moves when it is read; a `recv` that waits until its own timeout, or meets the end of the stream, is one outcome, silence, chosen by the environment. A yield ends the call, since the generator is then where a new one starts.
- Discovery.Listener.Next: the text of an id or address that is itself a list or an object is its JSON text instead of Python's `repr`.
- Discovery.FindDeviceIp: the broadcast targets and the receive window are left to the environment, which says what arrives.
- Ports are part of an address; the timeouts of connecting and of a single `sendall` are left to the environment.
- Data races in `FallbackClient`, `RediscoveringLocalTransport` and `new_sn`, which take no lock.
- Logging, `repr`, error texts, and the transport names.
- The account login, configuration flows, entities, scaling of readings, and the optimistic update after a command (coordinator.py:107-135): plumbing without a deep property.
