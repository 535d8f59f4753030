# Verified model of TclTLS

TclTLS puts TLS under a Tcl channel and offers digests and encryption as one-shot commands, file
commands, instance commands and stacked channels. This project models its stateful parts in Dafny and
proves what holds over every run of them.

| file | models |
|---|---|
| `TlsTypes.dfy`, `RawReads.dfy` | bytes, POSIX codes, OpenSSL outcomes, reads of a parent channel |
| `TlsMachine.dfy` | the channel driver as a transition system: the State, the Tcl core's references and timers, a stack of running C calls |
| `TlsFlags.dfy`, `TlsLifetime.dfy`, `TlsReports.dfy`, `TlsEarly.dfy`, `TlsTrace.dfy` | flags that stick, the life of the State, what is reported in every run and what too early, the order of SSL calls |
| `TlsStream.dfy` | two endpoints joined by a lossless connection |
| `TlsDrive.dfy`, `TlsChannel.dfy` | the C procedures with their loops and switches, proved to make the machine's steps |
| `TlsAnswers.dfy` | what each procedure answers, said over the results of OpenSSL alone |
| `TlsBio.dfy` | the transport BIO |
| `TlsHello.dfy` | the server name parser and the ALPN list builder |
| `EvpCipher.dfy`, `TlsEncrypt.dfy`, `TlsDigest.dfy` | encryption, decryption and digests in all their forms |
| `NmakeSubst.dfy` | the substitution engine of the Windows build helper |

**How the driver is modelled.** A `World` is a channel with everything that refers to it. Re-entrancy is
explicit: `TlsChannelHandlerTimer` inside `Tcl_NotifyChannel`, a script callback, `SSL_connect`,
`BIO_read`, `BIO_write` and the `SSL_shutdown` of a close are frames of a stack, and events happen above
them. `Enabled` says what the environment may do, `Step` what the code does then. The class
`TlsChannel.State` holds the C procedures in their own form; each is proved to end in the world that the
machine reaches from the same start with the same OpenSSL answers (`AfterCall`), and `AfterCallReaches`
makes that an ordinary run.

**What is assumed of the environment.** SSL_get_error is SSL_ERROR_NONE exactly for a positive result
(`Genuine`). BIO_read returns as many bytes as it says, BIO_write accepts no more than offered. Tcl
calls the driver only while the channel is open, and closes it only while no driver procedure other
than a timer handler is running. Tcl_EventuallyFree frees at once or when the last reference goes.
Scripts run only inside an SSL call, SSL_shutdown included, or Tls_Error.

**Where the order of SSL calls is safe.** The guard against I/O from callbacks is commented out
(generic/tls.c:415), so a script may start a read, write or handshake while another is running.
`TlsTrace.Careful` says for each event, in terms of the flags and of failed calls that still report
through Tls_Error, when it is safe; `TraceIsWellFormed` proves for every run that the calls stay in order
and the flags true exactly when every event is careful, and `CallsAreInOrder` that with honest retry flags
the calls alone are in order exactly then. Runs without overlapping I/O and with a BIO retry
flag that comes only with an incomplete operation (`Ordinary`) are always careful.
`HandshakeAfterFailure` and `ReentrantHandshakeRepeats` are runs that are not.

**What comes before EOF.** A failed call sets EOF only after reporting through Tls_Error, and the script
it runs may call the driver. `TlsReports` states what still holds in every run, `TlsEarly` exactly when an
event is passed up, a wait fails or FATAL_ERROR is set with EOF clear.

**Ciphers and hashes.** A cipher is any family of block permutations with a chaining value, of any
block size up to EVP_MAX_BLOCK_LENGTH; a hash is any state taking in bytes one by one. Padding is that
of section 6.3 of RFC 5652. Aligned sizes are defined by recursion (`Whole`), not by division.

**Where code and documentation differ.** `doc/tls.man` says `tls::handshake` answers 1 when the
handshake was successful. In blocking mode the code answers 1 whenever the attempt at which its loop
stops, the first that is not retried or the 11th, ended in neither SSL_ERROR_SSL, SSL_ERROR_SYSCALL nor
SSL_ERROR_ZERO_RETURN, so also when the handshake is incomplete (`TlsDrive.HandshakeCall`); a server whose
hello callback asks to be called again gets 1 after one attempt (`PausedHandshakeAnswersOne`). The ALPN
encoder accepts empty names, which section 3.1 of RFC 7301 forbids; `TlsHello.StrictDecodeEncode` says
exactly when a strict peer can read the list.

## Model

| member | source | states |
|---|---|---|
| TlsLifetime.FreedExactlyOnce | generic/tlsIO.c:1041-1177 | for every run, re-entrant or not, the preserve count equals set timer + live timer-handler and callback frames, only the recorded timer is scheduled, Tcl never panics, and the State is freed exactly once: when closed and the last frame has returned, after which no event is possible |
| TlsLifetime.RunKeepsLifetime | generic/tlsIO.c:111-119 | every event of every run keeps the reference balance and the alive/dead discipline |
| TlsLifetime.CleanFindsNoTimer | generic/tls.c:3176-3266 | in every run the step that frees the State is the first to do so, no frame is left, and the timer branch of Tls_Clean is dead |
| TlsLifetime.FatalStopsTimers | generic/tlsIO.c:1131-1139 | after a fatal error at most one more timer fires in any continuation, none if none was pending |
| TlsFlags.RunIsSticky | generic/tlsIO.c:271-404 | over any run FATAL_ERROR, EOF and CLOSED are never cleared and INIT is never set again |
| TlsReports.EveryRunReports | generic/tlsIO.c:1249-1279 | in every run, re-entrant or not: Tls_WaitForConnect never gives the soft error for a failed handshake; an event is passed up only after the handshake completed or failed with EOF set or, while a failed call still reports, about to be set; the same for FATAL_ERROR, so that it implies EOF whenever no driver call runs |
| TlsReports.WaitResults | generic/tlsIO.c:185-409 | in every run Tls_WaitForConnect gives 1 only with no error and INIT clear, 0 only with EAGAIN, -1 only with EOF set or about to be set |
| TlsEarly.EarlyNotificationIff | generic/tlsIO.c:1226-1279 | for every run: some step passes an event up with INIT set and EOF clear iff some notification with events to pass and CALLBACK clear, other than the last event, starts with INIT and FATAL_ERROR set and EOF clear; otherwise, at every moment, events have been passed up only with INIT clear or EOF set |
| TlsEarly.EarlyFailureIff | generic/tlsIO.c:185-200 | for every run: an event leaves Tls_WaitForConnect with -1 and EOF clear iff it is a handshake, or a notification with CALLBACK clear, that starts with INIT and FATAL_ERROR set and EOF clear |
| TlsEarly.EarlyFatalIff | generic/tlsIO.c:322-351 | for every run: FATAL_ERROR comes before EOF iff a socket error is found, and not retried, while EOF is clear |
| TlsEarly.NotifiedBeforeEof | generic/tlsIO.c:338-350 | such a run: a notification handled by the script of Tls_Error after a socket error is passed up with INIT set and EOF clear |
| TlsTrace.TraceIsWellFormed | generic/tlsIO.c:458-507 | for every run: no read or write before a successful handshake, no handshake after success or fatal error, no read after end or fatal error, no write after a fatal error, shutdown only in between, and flags that say exactly what SSL reported, all of this throughout the run iff every event is careful |
| TlsTrace.CallsAreInOrder | generic/tlsIO.c:202-268 | for every run with honest retry flags, re-entrant or not: the SSL calls are in order iff every event is careful |
| TlsTrace.StepIsGood | generic/tlsIO.c:185-292 | one event keeps calls and flags in agreement iff it is careful: entries, repeated attempts and returns to an outer call each with their exact condition |
| TlsTrace.OrdinaryTraceIsWellFormed | generic/tlsIO.c:703-765 | without overlapping I/O and with an honest retry flag the calls stay in order, events pass up only with INIT clear or EOF set at every moment, and Tls_WaitForConnect gives 1 iff INIT is clear, -1 only with EOF, and 1 to a reader or writer only when it may go on |
| TlsTrace.HandshakeAnswer | generic/tls.c:1294-1322 | in every run a wrong 1 happens iff blocking, the wait gave 0 and INIT is set; non-blocking and without overlapping I/O, 1 iff INIT is clear |
| TlsTrace.HonestyDecides | generic/tlsIO.c:234-264 | with no other I/O running, an attempt keeps trace and flags in agreement iff the retry flag is honest, or, blocking, no retry is left, or it only repeats an end that EOF already records |
| TlsTrace.ReentrantHandshakeRepeats | generic/tlsIO.c:202-268 | a script that completes the handshake inside SSL_connect makes the outer loop connect again |
| TlsTrace.HandshakeAfterFailure | generic/tlsIO.c:278-292 | non-blocking and with an honest retry flag, a script of Tls_Error that calls tls::handshake makes SSL_connect run after a fatal error |
| TlsStream.BytesArriveInOrder | generic/tlsIO.c:507-659 | for every interleaving of two endpoints, both ways, the bytes read are exactly the given-out prefix of the bytes reported as accepted |
| TlsStream.MessageArrives | generic/tlsIO.c:765-904 | a writer that offers only bytes not yet accepted, one write at a time, delivers a prefix of its message, nothing lost, doubled or reordered; scripts may read, notify or handshake during a write, and write during any of these |
| TlsStream.StepIsTruthful | generic/tlsIO.c:534-658 | each event reports to the application exactly the bytes OpenSSL took or gave |
| TlsDrive.EveryWaitIsBounded | generic/tlsIO.c:202-268 | in every run, re-entrant or not, each wait makes at most 11 handshake attempts before it is over |
| TlsDrive.AsyncWaitIsOneAttempt | generic/tlsIO.c:259-264 | in every run, re-entrant or not, a wait whose attempts return in non-blocking mode makes at most one |
| TlsDrive.WaitTerminates | generic/tlsIO.c:202-268 | an uninterrupted wait ends: 1 to 11 attempts blocking, exactly 1 non-blocking, 0 once connected or failed |
| TlsDrive.HandshakeCall | generic/tls.c:1257-1327 | the whole tls::handshake call: completed means 1; non-blocking 1 iff completed; blocking never 0, and the attempt at which the loop stops decides between success, failure and a 1 with the handshake incomplete |
| TlsDrive.LastAttemptIs | generic/tlsIO.c:259-264 | that attempt is the first that is not retried, or the one after all retries |
| TlsDrive.PausedHandshakeAnswersOne | generic/tls.c:1294-1322 | a blocking server whose hello callback pauses the handshake is answered 1 after one attempt, with INIT set |
| TlsDrive.AfterCallReaches | generic/tlsIO.c:438-659 | a driver call is a run of the machine and returns to its caller's frames |
| TlsAnswers.WaitAnswers | generic/tlsIO.c:185-409 | from OpenSSL's results alone: which attempt ends the loop of Tls_WaitForConnect, its result and error code for every value of SSL_get_error, INIT, FATAL_ERROR and EOF by the last attempt, and the events wanted by any attempt |
| TlsAnswers.InputAnswers | generic/tlsIO.c:438-659 | count, error code, data, flags and wanted events of a read for every SSL error: -1 with EAGAIN when it must wait, 0 without error only at an end or an unknown error; the early answers on CALLBACK, FATAL_ERROR and EOF; the failed wait |
| TlsAnswers.OutputAnswers | generic/tlsIO.c:679-905 | the like for a write and for the flush of an empty one |
| TlsAnswers.NotifyAnswers | generic/tlsIO.c:1226-1280 | the mask is passed up unchanged unless CALLBACK is set or the wait ends with EAGAIN; the timer is gone |
| TlsAnswers.HandshakeAnswers | generic/tls.c:1257-1327 | 0, 1 or an error of tls::handshake from the result of its wait |
| TlsChannel.State.TlsWaitForConnect | generic/tlsIO.c:170-409 | loop and switch make the machine's steps; result, error code and fields are what OpenSSL's results mean (`WaitMeans`) |
| TlsChannel.State.TlsInputProc | generic/tlsIO.c:438-659 | the machine's new state; count, error code, data and fields are what OpenSSL's results mean (`InputAnswer`) |
| TlsChannel.State.TlsOutputProc | generic/tlsIO.c:679-905 | the machine's new state; count, error code and fields are what OpenSSL's results mean (`OutputAnswer`) |
| TlsChannel.State.TlsWatchProc | generic/tlsIO.c:1104-1177 | nothing on CALLBACK, no interest after a fatal error, otherwise the mask is stored and passed down and a timer is set iff it asks for readability |
| TlsChannel.State.TlsNotifyProc | generic/tlsIO.c:1226-1280 | the machine's new state; the mask passed up and the fields are what OpenSSL's results mean |
| TlsChannel.State.HandshakeObjCmd | generic/tls.c:1257-1327 | the machine's new state; the answer is what OpenSSL's results mean |
| TlsChannel.State.TimerFires | generic/tlsIO.c:1041-1076 | the timer is gone and its reference to be released iff it was set; the mask raised is what is wanted, readable for pending input unless CLOSED, writable for pending output unless EOF |
| TlsChannel.State.TimerReturns | generic/tlsIO.c:1077-1083 | after anything the scripts did nothing is wanted any more and the reference is released |
| TlsChannel.State.TlsCloseProc | generic/tlsIO.c:92-121 | SSL_shutdown is called iff INIT and FATAL_ERROR are clear; otherwise the timer is dropped and the State handed to the deferred free |
| TlsChannel.State.ShutdownReturns | generic/tlsIO.c:109-121 | after anything the scripts of SSL_shutdown did CLOSED is set, the timer dropped and the State handed to the deferred free |
| TlsChannel.State.TlsBlockModeProc | generic/tlsIO.c:59-73 | TLS_TCL_ASYNC is set iff the mode is non-blocking; nothing else changes |
| TlsBio.EofIsRemembered | generic/tlsBIO.c:283-287 | over any call sequence the EOF query answers 1 iff the channel is at EOF now or some earlier call saw it |
| TlsBio.RetryDescribesLastTransfer | generic/tlsBIO.c:106-147 | BIO_should_retry holds iff the last transfer would have blocked |
| TlsBio.LastTransferDirects | generic/tlsBIO.c:106-223 | over any call sequence the last transfer decides both retry directions: write after a write that moved nothing without end of file or failed with one of six codes, read after the like read, both after a write of 0 bytes |
| TlsBio.NoTransferNoRetry | generic/tlsBIO.c:169-176 | before any transfer no retry flag is set |
| TlsBio.BioObject.BioOutput | generic/tlsBIO.c:97-148 | retry directions, end-of-file flag, errno and result of a write, from what Tcl_WriteRaw showed |
| TlsBio.BioObject.BioInput | generic/tlsBIO.c:169-223 | retry directions, end-of-file flag, errno and result of a read, from what Tcl_ReadRaw showed; nothing without a buffer |
| TlsBio.BioObject.BioFree | generic/tlsBIO.c:455-469 | flags are cleared only for a BIO_CLOSE BIO |
| TlsHello.ParseServerName | generic/tls.c:930-970 | every read is in bounds; succeeds iff the bytes are a list whose first entry is a host name that fits, and returns that name; which alert otherwise |
| TlsHello.NamesAreUnique | generic/tls.c:938-966 | the accepted name is determined by the bytes |
| TlsHello.FirstNameIsFound | generic/tls.c:938-966 | from a serialized list of section 3 of RFC 6066 exactly its first name can be read |
| TlsHello.OtherTypesAreRefused | generic/tls.c:948-951 | a list starting with another name type is refused |
| TlsHello.BuildProtocolList | generic/tls.c:1655-1700 | both loops agree on the size, the buffer is the encoding and decodes to the list; too long a name or a refusal by OpenSSL stores nothing |
| TlsHello.DecodeEncode | generic/tls.c:1667-1675 | decoding the buffer returns the list |
| TlsHello.EncodeIs | generic/tls.c:1667-1675 | each name stands behind its length in one byte, and nothing else is written |
| TlsHello.EncodeIsInjective | generic/tls.c:1667-1675 | different lists have different encodings |
| TlsHello.StrictDecodeEncode | generic/tls.c:1655-1675 | a strict RFC 7301 decoder accepts the list iff it is not empty, at most 65535 bytes and without empty names |
| EvpCipher.ChunkingIsInvisible | generic/tlsEncrypt.c:233-289 | any chunking gives the result, or the failure, of the one-shot form |
| EvpCipher.FeedIsUpdate | generic/tlsEncrypt.c:888-912 | a series of updates is one update with the joined data, context included |
| EvpCipher.DecryptIffEncrypt | generic/tlsEncrypt.c:1047-1054 | a ciphertext decrypts to a message iff the message encrypts to it |
| EvpCipher.RoundTrip | generic/tlsEncrypt.c:195-216 | decrypting in any chunks what was encrypted in any chunks returns the message |
| EvpCipher.EncryptionIs | generic/tlsEncrypt.c:270-289 | the sealed blocks of the padded message; without padding fails iff not block aligned |
| EvpCipher.DecryptionIs | generic/tlsEncrypt.c:270-289 | the unsealed blocks without their padding; fails iff not aligned or wrongly padded |
| EvpCipher.OneShotMeans | generic/tlsEncrypt.c:1039-1054 | the result is `out` iff data, with padding added before encrypting or removed after decrypting, is cut into blocks of which each becomes the next block of `out` under the chaining value its predecessor left; failure iff there is no such `out` |
| EvpCipher.OneShotFits | generic/tlsEncrypt.c:1039-1054 | update and finalize fit data length + one block |
| EvpCipher.UpdateFits | generic/tlsEncrypt.c:1097-1122 | one update fits its data + one block after any history, withheld block included |
| TlsEncrypt.CipherContext.EncryptUpdate | generic/tlsEncrypt.c:233-252 | writes the update's bytes at its offset and nothing before it, within its buffer |
| TlsEncrypt.CipherContext.EncryptFinalize | generic/tlsEncrypt.c:270-289 | writes the last bytes or fails |
| TlsEncrypt.EncryptDataHandler | generic/tlsEncrypt.c:1021-1071 | the result is that of the cipher's mode, block by block, in a buffer of data + EVP_MAX_BLOCK_LENGTH |
| RawReads.SourceJoins | generic/tlsEncrypt.c:1118-1141 | the source of a file command is the joined data of all reads that brought some |
| TlsEncrypt.TransformFile | generic/tlsEncrypt.c:1118-1141 | the read loop stays in its fixed buffers and writes what one update would |
| TlsEncrypt.EncryptFileHandler | generic/tlsEncrypt.c:1092-1172 | reported total is the output size; on success the file is the one-shot transform iff the total is the transform's size, as with complete writes; a short write is lost without an error |
| TlsEncrypt.EncryptInstance.FinalizeCommand | generic/tlsEncrypt.c:888-934 | all update results and the final one together are the one-shot result |
| TlsEncrypt.EncryptInstance.UpdateCommand | generic/tlsEncrypt.c:888-912 | an update command adds to input and output consistently |
| TlsEncrypt.StackedReadIsOneShot | generic/tlsEncrypt.c:406-462 | what is read up to the first 0 is the one-shot transform, however the parent splits, blocks or fails |
| TlsEncrypt.FinalizedOnce | generic/tlsEncrypt.c:351-370 | however reads and writes are interleaved, the final step runs exactly once per closed channel, at the first read that finds end of file or else at the close |
| TlsEncrypt.ReadFits | generic/tlsEncrypt.c:418-455 | what one read puts into the caller's buffer fits it, whatever the parent returns, iff no decrypted block is withheld, the held bytes complete no extra block, and no padding is to come or a block fits |
| TlsEncrypt.SecondBlockDoesNotFit | generic/tlsEncrypt.c:418-426 | a padded decryption with 16-byte blocks writes 32 bytes for its second read of 16 |
| TlsEncrypt.AlignedReadFits | generic/tlsEncrypt.c:418-455 | a buffer of whole blocks is large enough unless a decrypted block is withheld |
| TlsEncrypt.WriteIsReported | generic/tlsEncrypt.c:481-516 | the cipher takes every write, but the application is told so iff the data completes a block that may be released; a repeated write is taken twice |
| TlsEncrypt.ShortWriteIsTakenTwice | generic/tlsEncrypt.c:497-507 | the smallest such write |
| TlsEncrypt.WritesAreUpdate | generic/tlsEncrypt.c:481-516 | over any series of writes the parent is given what the cipher makes of the joined data |
| TlsEncrypt.WritesAreTransformed | generic/tlsEncrypt.c:340-375 | together with the final bytes of the close that is the transform of all the cipher took, block by block |
| TlsEncrypt.EncryptChannel.EncryptOutputProc | generic/tlsEncrypt.c:481-516 | the parent is given the cipher's output for this write, so that all outputs are the transform of all the cipher took; state and result |
| TlsEncrypt.EncryptChannel.EncryptInputProc | generic/tlsEncrypt.c:406-462 | the application is given the cipher's output, its exact count or EAGAIN, the parent's error, or at end of file the bytes that complete the transform; state, and the room taken in the caller's buffer |
| TlsEncrypt.EncryptChannel.EncryptCloseProc | generic/tlsEncrypt.c:340-375 | finalizes only if reading has not; the parent is given exactly what is missing from the transform; reports a failed write |
| TlsDigest.EmitsOnce | generic/tlsDigest.c:408-439 | a stacked digest channel, used in any way and closed, emits exactly one result: the presented digest of every byte that passed before the end, in order |
| TlsDigest.AbsorbJoin | generic/tlsDigest.c:249-272 | hashing in pieces is hashing the whole |
| TlsDigest.AbsorbIs | generic/tlsDigest.c:249-272 | the hash goes through one state per byte, in order |
| TlsDigest.ResultIs | generic/tlsDigest.c:290-357 | at most 64 squeezed bytes for an extendable hash with a length, the digest otherwise, as it is or in hexadecimal digits |
| TlsDigest.PassedJoins | generic/tlsDigest.c:471-557 | what passed a channel is the joined data of its reads and writes up to the end of file |
| TlsDigest.PassedOnce | generic/tlsDigest.c:471-557 | one call contributes the bytes read or written, and none for an error or end of file |
| TlsDigest.HexRoundTrip | generic/tlsDigest.c:340-347 | the hex form has twice the length and decodes to the binary form |
| TlsDigest.ResultFits | generic/tlsDigest.c:847-851 | every result fits 2 * EVP_MAX_MD_SIZE |
| TlsDigest.DigestState.DigestFinalize | generic/tlsDigest.c:290-357 | the result presents the hash state in the requested length and form |
| TlsDigest.DigestState.DigestInputProc | generic/tlsDigest.c:471-520 | data is absorbed byte by byte and never passed on; the digest of all that passed appears at end of file and needs no more than 2 * EVP_MAX_MD_SIZE |
| TlsDigest.DigestState.DigestOutputProc | generic/tlsDigest.c:539-557 | written data is absorbed whole, byte by byte |
| TlsDigest.DigestState.DigestCloseProc | generic/tlsDigest.c:408-439 | emits the digest of all that passed if reading has not |
| TlsDigest.DigestDataHandler | generic/tlsDigest.c:1031-1063 | the digest of every byte of the data, in order |
| TlsDigest.DigestFileHandler | generic/tlsDigest.c:1082-1137 | the digest of every byte read, in order |
| NmakeSubst.List.Insert | win/nmakehlp.c:561-576 | appends in file order and keeps the list acyclic; without memory changes nothing |
| NmakeSubst.List.Free | win/nmakehlp.c:578-589 | releases every item exactly once and reads none after its release |
| NmakeSubst.ReplaceInBuffer | win/nmakehlp.c:660-672 | the copying loops replace the first occurrence, within both buffers |
| NmakeSubst.SubstituteLine | win/nmakehlp.c:658-673 | the list is applied as a left fold |
| NmakeSubst.SubstituteFile | win/nmakehlp.c:608-681 | each output line comes from its input by replacing the first occurrence of each key in file order, for the parsed pairs for which list_insert got memory |
| NmakeSubst.AllStored | win/nmakehlp.c:561-576 | with enough memory these are all pairs of the file, in file order |
| NmakeSubst.ReplaceFirstIs | win/nmakehlp.c:660-670 | nothing changes around the first occurrence |
| NmakeSubst.SubstituteIs | win/nmakehlp.c:658-673 | the line goes through one replacement of a first occurrence per pair, in file order |
| NmakeSubst.UntouchedLine | win/nmakehlp.c:658-673 | a line in which no key occurs is left alone |
| NmakeSubst.LayoutIsParsed | win/nmakehlp.c:626-638 | a line in the documented layout gives back its key and value |
| NmakeSubst.ReadPair | win/nmakehlp.c:626-637 | the four pointer walks parse a line |

## Left out

- TlsTrace.OrdinaryTraceIsWellFormed: assumes no overlapping I/O and an honest retry flag; `TraceIsWellFormed` gives the exact condition for all runs.
- TlsReports.EveryRunReports: says "about to be set" while a failed call reports; `TlsEarly` says exactly when the plain forms hold.
- TlsTrace.CallsAreInOrder: assumes honest retry flags, because a dishonest one upsets the flags before any call is out of order.
- TlsStream.MessageArrives: assumes that no write starts while another runs on the channel.
- TlsLifetime.FreedExactlyOnce: excludes a close from inside a read, write, notification or handshake, import errors after the channel is stacked, and `-model`.
- TlsChannel.State.TimerReturns: `TlsChannelHandlerTimer` is two methods, before and after Tcl_NotifyChannel, so that anything may happen to the same State in between.
- TlsChannel.State.ShutdownReturns: `TlsCloseProc` is two methods for the same reason, before and after SSL_shutdown; the BIO_flush before it runs no script here.
- TlsTrace.HandshakeAnswer: in blocking mode the wrong answer 1 is characterised, not excluded.
- TlsDigest.DigestFileHandler: a failed read is skipped as in the code, so the digest is of what could be read.
- TlsEncrypt.EncryptChannel.EncryptInputProc: does not require that the caller's buffer is large enough, because the code does not check it; `ReadFits` says when it is. The one-shot, instance and file forms have buffers that always suffice.
- TlsDigest.DigestState.DigestInputProc: likewise copies the result without comparing it with `toRead`; room for 2 * EVP_MAX_MD_SIZE bytes always suffices.
- NmakeSubst.SubstituteFile: lines whose intermediate forms do not fit the 1024-byte buffers are excluded, and so are files that cannot be opened.
- TlsEncrypt.WriteIsReported: chunk invariance is not claimed for the write side of the encryption channel, because the code does not have it; the result of Tcl_WriteRaw is ignored there as in the code.
- Memory release in Tls_Clean (callbacks, BIO, SSL, contexts) beyond its timer branch, and the texts passed to Tls_Error.
- Integer widths: lengths are unbounded, so the narrowing of sizes to int for OpenSSL is not modelled; the width of the wire-format lengths is.
- Failures of key, IV and digest set-up, of EVP_DigestUpdate and of memory allocation other than in list_insert.
- BioCtrl cases other than the EOF query and the close flag, which return constants or buffer sizes; the fast path over a socket.
- Timers of the digest and encryption channels, option tables, X.509, KDF and random wrappers, and the process code of nmakehlp.
- A negative `-length` for extendable-output digests.
