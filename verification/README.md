# Verified model of the TPMS decoder and its FTP server

The repository decodes tyre-pressure sensor recordings and bundles the FTP server (vsftpd 3.0.3 with local changes) that
receives them. This project models the parts of both whose correctness is hardest to see by reading, and proves what
they promise. `dafny verify dfyconfig.toml` verifies all of it.

| file | part of the system |
|---|---|
| `Complex.dfy`, `Arithmetic.dfy`, `Fourier.dfy`, `Fft.dfy` | the in-place radix-2 transform against the Fourier sum |
| `Seccomp.dfy`, `SandboxSetup.dfy`, `SandboxMeaning.dfy` | the rule table, its compilation to a BPF filter, the rules the server installs, and which system calls they permit |
| `SslRelay.dfy`, `RelayOrder.dfy` | the message protocol between the FTP process and the SSL slave, and the order of its use |
| `Broker.dfy` | the privileged calls of the two-process model, made by the parent |
| `HashTable.dfy`, `Listener.dfy` | the chained hash table and the per-address client accounting built on it |
| `Strings.dfy`, `Glob.dfy`, `GlobExact.dfy`, `GlobBraces.dfy` | string search and the file name matcher |
| `Ascii.dfy`, `LineReader.dfy`, `Control.dfy`, `Reply.dfy` | the stream transforms of the data and control connections |
| `SessionSpec.dfy`, `Session.dfy` | the command loop of a logged-in session: what each command means, and the handlers with PORT and PASV, data connections and log entries |
| `Throttle.dfy` | bandwidth limiting |
| `Packet.dfy` | differential Manchester packets of the decoder |
| `Defs.dfy`, `Wrappers.dfy` | shared sizes and the option type |

Three kinds of result run through the files. A loop or an object of the source is a Dafny method or class that is tied
to a specification function, and the promise is proved of that function (the transform equals the Fourier sum and is
inverted by the reverse transform; the emitted filter means first match; chunked conversion equals conversion of the
whole stream). A protocol or an event loop is a machine with an invariant kept by every step, so the promise holds in
every run (the relay, the accounts, the session). Where a natural promise does not hold of the code, the exact condition
under which it does is proved: the file name matcher decides the language of a brace-free filter exactly when the filter
is tame and takes fewer turns than the budget of 1000 has left, and that of a filter with plain braces and no star
exactly when no brace has an empty alternative; the relay is safe exactly for requests within the slave's limits; a
throttled call keeps to the limit exactly when the clock moved or the transfer was large; sending and receiving a file
in ASCII mode restores it exactly when it has no CR LF pair; a reply can be read back exactly when its text has no NUL,
and a command exactly when it also fits the line limit and does not end in CR; the session's own consistency checks stop
it exactly when a transfer reaches a reserved port, which only the promiscuous configuration accepts, and it leaves its
loop for five reasons only; a decoder with its
two frequencies swapped refuses exactly the packets whose first measured half-bit was not in doubt.

The machines fit together. The session proves that what it asks of the SSL slave comes in order and within the limits; the
relay serves every such session and never holds it up. The session's privileged calls are those of one process, which is
exactly what the broker delivers in the two-process model.

What the operating system or the peer decides is an input: the cuts of a stream, the results of fork, bind and connect,
the outcome of SSL calls, the answers of the bit detector, the clock. Floating point is modelled by exact reals, and the
square root of the transform by any function with a non-negative exact root. C strings are strings without NUL.

## Model

| member | source | states |
|---|---|---|
| Fft.NextReversed | other/fft.c:37-42 | the carry loop turns the bit reversal of i into the bit reversal of i + 1, and ends |
| Fft.AllOnesNeverCarries | other/fft.c:28-42 | from the all-ones counter the carry loop falls into a state it never leaves, so the outer loop has to stop one short |
| Fft.RevInvolution | other/fft.c:25-43 | bit reversal undoes itself, so each pair is swapped once |
| Fft.BitReverse | other/fft.c:25-43 | afterwards every slot holds the sample of the reversed index |
| Fft.Stage | other/fft.c:54-67 | the two inner loops, in place, apply every butterfly to the values from before the stage |
| Fft.CombineHalves | other/fft.c:57-62 | a butterfly combines the sums over the even and the odd samples into the sum over both, in both halves of the block |
| Fft.StageAdvances | other/fft.c:49-72 | if every block holds the Fourier sums of its samples, so does every block of twice the size after one stage |
| Fft.Transform | other/fft.c:15-83 | for every m, direction and input the buffer ends up with the defining Fourier sums: for direction 1 each slot times n is the sum, otherwise each slot is |
| Fft.DivideAll | other/fft.c:74-80 | the scaling loop divides every slot by the length |
| Fourier.RootSquare | other/fft.c:46-47 | each half-angle root lies on the unit circle, on the side of the direction, and squares to the root before it |
| Fourier.RootHalfTurn | other/fft.c:68-71 | half a turn of the root of stage l is -1, so it is a primitive 2^l-th root of unity |
| Fourier.RootConjugate | other/fft.c:69-70 | the root of any other direction is the conjugate and the inverse of the forward one |
| Fourier.FourthRoot | other/fft.c:68-71 | the fourth root is -i for direction 1 and i for any other |
| Fourier.StridedSplit | other/fft.c:54-63 | a Fourier sum of 2n strided samples splits into the sums over the even and the odd ones with the squared root |
| Fourier.RootOrthogonal | other/fft.c:45-72 | the powers of the root at a nontrivial step sum to zero |
| Fourier.ReverseUndoesForward | other/fft.c:15-83 | the reverse transform of the forward transform is the input, for every m and input |
| Fourier.ForwardUndoesReverse | other/fft.c:15-83 | and the other way round |
| Fourier.FourPoints | other/fft.c:15-83 | in figures: the second of four outputs, for both directions |
| Seccomp.RuleTable.Add | server/vsftpd-3.0.3/seccompsandbox.c:91-258 | a rule is appended exactly if there is room and its checks pass; the stored row encodes it and the counters of one, two and three tests stay right |
| Seccomp.BlockRuns | server/vsftpd-3.0.3/seccompsandbox.c:549-646 | the block of a rule returns its verdict if the rule matches and otherwise goes on behind the block with the call number loaded |
| Seccomp.CompileCorrect | server/vsftpd-3.0.3/seccompsandbox.c:505-657 | for every accepted table and every call record the program returns the verdict of the first matching rule, kill if none matches or the architecture is another |
| Seccomp.HighWordsIgnored | server/vsftpd-3.0.3/seccompsandbox.c:570-622 | only the low 32 bits of the arguments matter |
| Seccomp.LengthFormula | server/vsftpd-3.0.3/seccompsandbox.c:508-513 | the length computed beforehand is the number of instructions emitted |
| Seccomp.CompileIsAccepted | server/vsftpd-3.0.3/seccompsandbox.c:521-657 | the kernel takes the program exactly if it has at most 4096 instructions: every jump is one byte and lands inside, every load is inside the record, and the last instruction returns |
| Seccomp.TableIsAccepted | server/vsftpd-3.0.3/seccompsandbox.c:505-657 | a table of 100 rules gives at most 905 instructions, so its program is always taken |
| Seccomp.RuleTable.Lockdown | server/vsftpd-3.0.3/seccompsandbox.c:505-657 | the emission loop fills the allocated array exactly, with the compilation of the rules |
| Seccomp.EmitBlock | server/vsftpd-3.0.3/seccompsandbox.c:549-646 | one turn of the loop writes the block of one row behind what is there |
| Seccomp.AcceptedIff | server/vsftpd-3.0.3/seccompsandbox.c:91-258 | the builders take a rule exactly if its call number is not negative, its arguments are one to six and its error is one byte |
| Seccomp.CompileGrows | server/vsftpd-3.0.3/seccompsandbox.c:521-657 | the program of an empty table, and one more rule puts its block in front of the last return |
| Seccomp.PlainBlock | server/vsftpd-3.0.3/seccompsandbox.c:549-646 | the instructions of a rule without tests: an error of zero is permission |
| Seccomp.OneTestBlock | server/vsftpd-3.0.3/seccompsandbox.c:570-646 | of a rule with one test, equal or masked, of the low half of an argument |
| Seccomp.TwoTestBlock | server/vsftpd-3.0.3/seccompsandbox.c:570-646 | of a rule with two tests, the second argument first |
| Seccomp.ThreeTestBlock | server/vsftpd-3.0.3/seccompsandbox.c:570-646 | of a rule with three tests, the last argument first |
| SandboxSetup.PostloginFits | server/vsftpd-3.0.3/seccompsandbox.c:365-495 | for every setting of the tunables at most 69 rules, each of which passes its builder's checks |
| SandboxSetup.BrokerFits | server/vsftpd-3.0.3/seccompsandbox.c:497-503 | the same for the broker, at most 25 rules |
| SandboxSetup.ReadOnlySandbox | server/vsftpd-3.0.3/seccompsandbox.c:365-495 | without write_enable the installed filter kills every open or openat that asks for write access |
| SandboxSetup.SyslogShadowsDataSockets | server/vsftpd-3.0.3/seccompsandbox.c:322-363 | with syslog_enable every socket call is refused, although later rules of the one-process model allow it |
| SandboxSetup.AddAll | server/vsftpd-3.0.3/seccompsandbox.c:91-258 | a list of rules goes in exactly if all are accepted and fit |
| SandboxSetup.InstallPostlogin | server/vsftpd-3.0.3/seccompsandbox.c:365-657 | installing the session sandbox never reaches a builder's bug check and yields the compiled list, whose meaning for each system call the rows of SandboxMeaning give |
| SandboxMeaning.NumbersApart | server/vsftpd-3.0.3/seccompsandbox.c:286-503 | the rules speak of different system calls |
| SandboxMeaning.AlwaysAllowed | server/vsftpd-3.0.3/seccompsandbox.c:286-495 | for every setting the session's filter permits reading, writing and closing what is open, memory, clock and exit, and looking around in the file system |
| SandboxMeaning.ChangesAllowed | server/vsftpd-3.0.3/seccompsandbox.c:467-494 | mkdir, unlink, rmdir, rename, ftruncate, utime, utimes and chmod are permitted exactly with write_enable and, for each, the tunables of the change, and kill otherwise |
| SandboxMeaning.OwnersAllowed | server/vsftpd-3.0.3/seccompsandbox.c:431-449 | fchmod and fchown are permitted exactly in the one-process model for anonymous uploads that change their owner |
| SandboxMeaning.ListenAllowed | server/vsftpd-3.0.3/seccompsandbox.c:260-284 | listen and accept are permitted exactly in the one-process model with pasv_enable |
| SandboxMeaning.ConnectAllowed | server/vsftpd-3.0.3/seccompsandbox.c:260-284 | connect is permitted exactly in the one-process model with port_enable, bind and select exactly in the one-process model |
| SandboxMeaning.SetOptionsAllowed | server/vsftpd-3.0.3/seccompsandbox.c:365-465 | setsockopt is permitted exactly for keep-alive, linger and type of service, for address reuse of outgoing data connections in the one-process model, and for no-delay with TLS |
| SandboxMeaning.GetOptionsAllowed | server/vsftpd-3.0.3/seccompsandbox.c:260-284 | getsockopt is permitted exactly for the error of an outgoing data connection in the one-process model |
| SandboxMeaning.MessagesAllowed | server/vsftpd-3.0.3/seccompsandbox.c:322-459 | recvfrom is permitted exactly to peek, sendto exactly for syslog without an address |
| SandboxMeaning.DescriptorMessagesAllowed | server/vsftpd-3.0.3/seccompsandbox.c:354-449 | messages with descriptors are received with TLS or from the other process, and sent only to that for uploads that change their owner or for TLS |
| SandboxMeaning.OpenAllowed | server/vsftpd-3.0.3/seccompsandbox.c:365-404 | open and openat are permitted exactly within the flags for reading, or with write_enable for any access |
| SandboxMeaning.MapAllowed | server/vsftpd-3.0.3/seccompsandbox.c:286-465 | mappings are private and anonymous, or with text_userdb_names shared for reading |
| SandboxMeaning.ProtectAllowed | server/vsftpd-3.0.3/seccompsandbox.c:286-311 | memory is protected only for reading |
| SandboxMeaning.TimersAllowed | server/vsftpd-3.0.3/seccompsandbox.c:342-429 | signal handlers, alarms and sendfile, exactly as the time-outs, async_abor_enable and use_sendfile ask |
| SandboxMeaning.DescriptorFlagsAllowed | server/vsftpd-3.0.3/seccompsandbox.c:336-394 | descriptor flags within those of open, locks exactly for logs and uploads that are locked, the owner exactly the process itself with async_abor_enable |
| SandboxMeaning.OthersKilled | server/vsftpd-3.0.3/seccompsandbox.c:286-495 | every call with another number kills the session, whatever its arguments |
| SandboxMeaning.SocketAnswer | server/vsftpd-3.0.3/seccompsandbox.c:260-465 | socket is refused with EACCES, permitted or fatal by its arguments and the tunables, the first of these that applies |
| SandboxMeaning.RemapAnswer | server/vsftpd-3.0.3/seccompsandbox.c:286-311 | mremap is refused with ENOSYS in every session |
| SandboxMeaning.BrokerAllowed | server/vsftpd-3.0.3/seccompsandbox.c:497-503 | what the broker's filter permits by call number and tunables |
| SandboxMeaning.BrokerSockets | server/vsftpd-3.0.3/seccompsandbox.c:497-503 | its sockets and their options |
| SandboxMeaning.BrokerMemory | server/vsftpd-3.0.3/seccompsandbox.c:497-503 | its memory, descriptor flags and messages |
| SandboxMeaning.BrokerOthersKilled | server/vsftpd-3.0.3/seccompsandbox.c:497-503 | every call with another number kills the broker |
| SslRelay.StepKeeps | server/vsftpd-3.0.3/sslslave.c:32-127 | every step of either side keeps the relay invariant |
| SslRelay.RelaySafe | server/vsftpd-3.0.3/sslslave.c:32-127 | in every interleaving neither side reaches one of its bug or die checks and every message is read as what it was sent |
| SslRelay.Transparent | server/vsftpd-3.0.3/readwrite.c:32-140 | whenever the consumer is between operations, the slave has done exactly what was asked, with the results that were seen |
| SslRelay.CleanBetweenCommands | server/vsftpd-3.0.3/ftpdataio.c:55-107 | at a command boundary the slave holds neither descriptor nor handle |
| RelayOrder.PhaseIsTraced | server/vsftpd-3.0.3/ftpdataio.c:159-193 | in every run the completed operations, replies aside, came in order, with the marks the slave gave them, and determine the phase |
| RelayOrder.NextUseTaken | server/vsftpd-3.0.3/readwrite.c:32-140 | after any run, with any replies in between, that completed the first operations of an orderly session, the relay takes the next; if that is the next command, the slave is clean |
| RelayOrder.Completes | server/vsftpd-3.0.3/sslslave.c:32-127 | an operation under way can be brought to its end with any answer the slave may give |
| RelayOrder.SessionServed | server/vsftpd-3.0.3/readwrite.c:32-140 | for every orderly session some run of the two processes completes exactly its operations with the outcomes it recorded |
| Broker.RequestParses | server/vsftpd-3.0.3/postprivparent.c:46-79 | from what it has read the parent knows which call is meant, or that there is more to come |
| Broker.AnswerParses | server/vsftpd-3.0.3/twoprocess.c:220-296 | the same for the child and the answers |
| Broker.StepKeeps | server/vsftpd-3.0.3/postprivparent.c:35-184 | every step of either process keeps the broker invariant |
| Broker.TwoProcessesAreDirect | server/vsftpd-3.0.3/twoprocess.c:220-296 | in every interleaving in which no call kills the parent, nothing is misread, and calls, answers and listener are those of one process making the calls itself |
| Broker.ExactlyDirect | server/vsftpd-3.0.3/oneprocess.c:139-176 | between calls, two processes can have exactly the answers and the listener that one can |
| Broker.NeverStuck | server/vsftpd-3.0.3/postprivparent.c:46-79 | until a call is over one process can move |
| Broker.Progress | server/vsftpd-3.0.3/twoprocess.c:220-296 | every effective step brings a call nearer its end, ten at most |
| SslRelay.Progress | server/vsftpd-3.0.3/privsock.c:75-215 | every effective step brings the operation nearer its end |
| SslRelay.OperationEnds | server/vsftpd-3.0.3/readwrite.c:32-140 | an operation is over after at most 13 effective steps of any schedule |
| SslRelay.NeverStuck | server/vsftpd-3.0.3/ftpdataio.c:159-193 | until an operation is over one side can move: nobody waits for a message that will not come |
| SslRelay.ChunkSizeInLimits | server/vsftpd-3.0.3/ftpdataio.c:644-658 | a tunable from 4096 up to the buffer is asked for as it is, a smaller positive one as 4096 and any other as the buffer, 65536; the slave takes each |
| SslRelay.OversizeKills | server/vsftpd-3.0.3/privsock.c:152-169 | a request beyond the limits stops the slave at its second message |
| SslRelay.LimitsExact | server/vsftpd-3.0.3/sslslave.c:72-100 | an operation is safe in every schedule exactly when it is within the limits |
| SslRelay.LimitsInBytes | server/vsftpd-3.0.3/privsock.c:152-169 | the limits in bytes: 65536 for a read, 131072 for what is sent |
| HashTable.PushFront | server/vsftpd-3.0.3/hash.c:79-88 | a node put in front leaves a chain linked both ways |
| HashTable.Unlink | server/vsftpd-3.0.3/hash.c:100-117 | taking any node out leaves the rest linked both ways |
| HashTable.KeysApart | server/vsftpd-3.0.3/hash.c:120-129 | no two buckets share a node and no bucket holds a key twice |
| HashTable.Table.Lookup | server/vsftpd-3.0.3/hash.c:51-60 | the chain walk finds the node of the key exactly if the map has the key |
| HashTable.Table.Add | server/vsftpd-3.0.3/hash.c:62-90 | adding is map insertion, refused exactly for a key that is there |
| HashTable.Table.Free | server/vsftpd-3.0.3/hash.c:92-118 | freeing is map removal, refused exactly for a key that is not there |
| HashTable.Table.Store | server/vsftpd-3.0.3/standalone.c:294-312 | a write through the returned pointer is a map update |
| Accounting.StepBalances | server/vsftpd-3.0.3/standalone.c:139-198 | accepting, failing to fork and reaping keep the books balanced |
| Accounting.TotalIsChildren | server/vsftpd-3.0.3/standalone.c:214-257 | the per-address counts add up to the number of live children |
| Accounting.RunConserves | server/vsftpd-3.0.3/standalone.c:139-257 | in every run the total equals the live pids and the sum of the counts, each address has as many as live pids map to it, and no zero count is kept |
| Listener.HashesInRange | server/vsftpd-3.0.3/standalone.c:268-292 | both hash functions name a bucket for every key |
| Listener.HashIpGrows | server/vsftpd-3.0.3/standalone.c:268-285 | each byte of an address goes into the hash at its position in a word, by exclusive or |
| Listener.HandleIpCount | server/vsftpd-3.0.3/standalone.c:294-312 | one more for an address, created at one |
| Listener.DropIpCount | server/vsftpd-3.0.3/standalone.c:214-235 | one fewer, forgotten at zero; fails exactly for an address without clients |
| Listener.Server.Accept | server/vsftpd-3.0.3/standalone.c:139-198 | no check fires, the books make the step, and the child is told the counts that include itself |
| Listener.Server.ReapOne | server/vsftpd-3.0.3/standalone.c:237-257 | no check fires and the books make the step |
| Listener.Server.HandleSigchld | server/vsftpd-3.0.3/standalone.c:237-257 | the handler's loop makes all the steps of the reaped children |
| Strings.IndexOf | server/vsftpd-3.0.3/str.c:446-453 | the first position of a character |
| Strings.LocateText | server/vsftpd-3.0.3/str.c:482-507 | the first occurrence of a text, none for the empty text |
| Strings.LocateChars | server/vsftpd-3.0.3/str.c:455-480 | the first position that holds any of the characters |
| Strings.SplitChar | server/vsftpd-3.0.3/str.c:367-375 | the parts before and after the first such character |
| Glob.PassesFilter | server/vsftpd-3.0.3/ls.c:222-369 | for every filter, verdict and turns are those of the reference matcher `Match`, braces and shared budget included; at most 1000 turns in all; accepted names are in the language of the filter; without braces it accepts exactly what the greedy match accepts within the budget |
| Glob.TryAlternatives | server/vsftpd-3.0.3/ls.c:307-332 | the alternatives are tried in order up to the first empty one, the turns of each counted for the next |
| Glob.MatchSound | server/vsftpd-3.0.3/ls.c:252-361 | what is accepted is in the declarative language, for all filters |
| Glob.MatchBraceFree | server/vsftpd-3.0.3/ls.c:252-361 | without braces the matcher is the leftmost-greedy match, if its turns fit the budget |
| Glob.TurnsMeans | server/vsftpd-3.0.3/ls.c:252-361 | the turns of a filter without braces: one for each special character and one for a text at the end |
| GlobExact.TameExact | server/vsftpd-3.0.3/ls.c:252-361 | on tame filters the greedy match accepts exactly the language |
| GlobExact.BadName | server/vsftpd-3.0.3/ls.c:252-361 | for every other brace-free filter, a name of its language that the greedy match rejects |
| GlobExact.ExactIffTame | server/vsftpd-3.0.3/ls.c:222-369 | with some turns of the budget used, a brace-free filter is matched exactly, for all names, if and only if it is tame and its turns fit the rest of the 1000; tame: it has no star, or what follows its first star is a series of pieces, each a text, question marks (either may be missing) and a star |
| GlobExact.ThousandStars | server/vsftpd-3.0.3/ls.c:252-361 | a thousand stars are tame and stand for every name, and match none |
| GlobExact.StarLiteralIncomplete | server/vsftpd-3.0.3/ls.c:275-296 | "*a" stands for "aba" but is not matched |
| GlobBraces.Affordable | server/vsftpd-3.0.3/ls.c:252-361 | with the cost of the filter left in the budget no name makes the matcher run out of turns |
| GlobBraces.GentleExact | server/vsftpd-3.0.3/ls.c:222-369 | within that cost a filter is matched exactly if no brace has an empty alternative and what follows a star has no brace and is tame |
| GlobBraces.BracesExactIff | server/vsftpd-3.0.3/ls.c:307-332 | without stars and nested braces, and within that cost, a filter is matched exactly, for all names, if and only if no brace has an empty alternative |
| GlobBraces.EmptyFirst | server/vsftpd-3.0.3/ls.c:317-331 | a brace whose first alternative is empty matches no name |
| GlobBraces.EmptyAlternativeExample | server/vsftpd-3.0.3/ls.c:317-331 | "{,a}" stands for "a" and for the empty name, and matches neither |
| GlobBraces.NestedExample | server/vsftpd-3.0.3/ls.c:307-332 | "{?{,,}?}", where a brace opens in a brace list, has empty alternatives and is still taken for exactly what it means |
| Ascii.StripChunk | server/vsftpd-3.0.3/ascii.c:12-54 | what has been written after one more chunk is what the longer stream calls for |
| Ascii.StripFlush | server/vsftpd-3.0.3/ftpdataio.c:606-641 | at the end of the stream exactly a CR that was held back is missing |
| Ascii.AsciiToBin | server/vsftpd-3.0.3/ascii.c:12-54 | in place, the chunk's conversion, with the CR of the chunk before it; no byte is lost before it is read |
| Ascii.BinToAscii | server/vsftpd-3.0.3/ascii.c:56-98 | the chunk's expansion, within twice its size |
| Ascii.FileRecv | server/vsftpd-3.0.3/ftpdataio.c:589-642 | however an upload is cut, the file gets the conversion of the whole stream, or in binary mode the stream itself; after a failed read, that of the part before it, but for a CR held back; after a failed write, that of the chunks before it and the part of the next that the write stored; always a prefix of the whole |
| Ascii.FileSend | server/vsftpd-3.0.3/ftpdataio.c:464-532 | however a download is cut, the network gets the expansion of the whole file, or in binary mode the file itself; after a failed write, that of the chunks before it and the part of the next that got out, which the reported count leaves out exactly if the write ended in an error; always a prefix of the whole |
| Ascii.WriteData | server/vsftpd-3.0.3/readwrite.c:103-125 | a write of a download, plain or secured: the count or an error, and what got out |
| Ascii.WriteLoop | server/vsftpd-3.0.3/sysutil.c:426-461 | all the bytes get out, or those before a write that stored nothing or failed; an error hides how many |
| Ascii.WriteMeans | server/vsftpd-3.0.3/sysutil.c:426-461 | what has got out is the sum of the answers before the first call that fails, stores nothing or takes the rest, which decides the result |
| Ascii.FileAfterMeans | server/vsftpd-3.0.3/ftpdataio.c:589-642 | after some writes of an upload the file is the conversion of what was read but for a CR held back; in binary mode what was read |
| Ascii.NetAfterMeans | server/vsftpd-3.0.3/ftpdataio.c:464-532 | after some writes of a download the network has the expansion of what was read; in binary mode what was read |
| Ascii.StripLast | server/vsftpd-3.0.3/ascii.c:12-54 | the conversion of an upload read from its end: CR LF becomes LF and any other last character stays |
| Ascii.ExpandLast | server/vsftpd-3.0.3/ascii.c:56-98 | that of a download: an LF gets a CR unless one stands before it, and any other last character stays |
| Ascii.ExpandBare | server/vsftpd-3.0.3/ascii.c:56-98 | what is sent has no LF without a CR before it, and a file is sent as it is exactly if it has none |
| Ascii.ExpandChunk | server/vsftpd-3.0.3/ascii.c:56-98 | expansion commutes with cutting, given the last character |
| Ascii.ExpandIdempotent | server/vsftpd-3.0.3/ascii.c:56-98 | expanding twice is expanding once |
| Ascii.StripExpand | server/vsftpd-3.0.3/ascii.c:12-98 | stripping an expanded stream is stripping the original |
| Ascii.SendThenReceive | server/vsftpd-3.0.3/ascii.c:12-98 | send then receive restores a file exactly if it has no CR LF pair |
| LineReader.ReadLine | server/vsftpd-3.0.3/netstr.c:18-89 | however peeks cut the input: the line before the first terminator, consumed exactly through it, if it is within the limit; else -1 or end of file; the accounting check holds |
| LineReader.TextBefore | server/vsftpd-3.0.3/str.c:107-122 | the text up to the terminator |
| LineReader.TakeLine | server/vsftpd-3.0.3/netstr.c:54-74 | the read that follows the peek delivers the line |
| Control.ControlGetline | server/vsftpd-3.0.3/ftpcmdio.c:218-247 | the next command of the stream, an overlong line or the end, and what is used up |
| Control.NextMeans | server/vsftpd-3.0.3/ftpcmdio.c:218-247 | the end exactly for less than 4096 characters without LF, too long exactly for 4096 without one; else the text before the first LF with NUL turned into LF and only CRs cut off its end |
| Control.StripTrailing | server/vsftpd-3.0.3/ftpcmdio.c:236-245 | the loop removes all CRs at the end |
| Control.FrameRoundTrip | server/vsftpd-3.0.3/ftpcmdio.c:218-247 | a command in its frame is read back, and exactly its frame used up, if and only if it is within the limit, has no NUL and does not end in CR |
| Control.ReadAll | server/vsftpd-3.0.3/ftpcmdio.c:218-247 | pipelined commands, however the network cuts them, are read one by one as they were sent |
| Reply.ReplaceText | server/vsftpd-3.0.3/str.c:343-365 | left-to-right, non-overlapping replacement |
| Reply.SubstFirst | server/vsftpd-3.0.3/str.c:386-431 | the replacement starts at the first occurrence and goes on behind it |
| Reply.ReplaceChar | server/vsftpd-3.0.3/str.c:330-341 | in place, every occurrence and nothing else |
| Reply.BuildLine | server/vsftpd-3.0.3/ftpcmdio.c:117-147 | status, separator, escaped text, line end; the digits up to a separator that is none, evaluated from the left, give the status, three of them for 100 to 999 |
| Reply.StatusReadBack | server/vsftpd-3.0.3/ftpcmdio.c:136-141 | the same of the line: a client reads back status and separator |
| Reply.EscapeStep | server/vsftpd-3.0.3/ftpcmdio.c:123-135 | character by character: 0xFF is doubled, LF becomes NUL, the others stay |
| Reply.OneLine | server/vsftpd-3.0.3/ftpcmdio.c:117-147 | the only LF of a reply is its last byte, for every text |
| Reply.ReplyRoundTrip | server/vsftpd-3.0.3/ftpcmdio.c:117-147 | collapsing doubled 0xFF (RFC 854) and mapping NUL back to LF gives the text back exactly if it has no NUL |
| Reply.PwdText | server/postlogin.c:484-497 | the path in quotes, its own quotes doubled, and behind the closing quote the fixed text |
| Reply.QuotesRoundTrip | server/postlogin.c:484-497 | undoing the doubling recovers the path (Appendix II of RFC 959) |
| Session.PortActive | server/postlogin.c:529-542 | the mutually recursive tests end, and the PORT test tells whether PORT is set up |
| Session.PasvActive | server/postlogin.c:544-564 | the same for PASV |
| Session.ChainEndsIff | server/postlogin.c:529-564 | the chain of calls between the two ends exactly when not both are set up |
| Session.LegalBalances | server/vsftpd-3.0.3/logging.c:80-128 | at every moment of a legal journal each kind of thing was closed as often as opened, but for the one still open |
| Session.Session.StartLog | server/vsftpd-3.0.3/logging.c:80-97 | opens an entry; the bug check fires exactly if one is open |
| Session.Session.EndLog | server/vsftpd-3.0.3/logging.c:116-128 | closes the open entry with its verdict |
| Session.Session.Listen | server/vsftpd-3.0.3/privops.c:119-189 | up to nine attempts, each failed one closed before the next; listening exactly if some attempt binds after only addresses in use |
| Session.Session.HandlePasv | server/postlogin.c:585-664 | replaces any earlier setup by a listener; EPSV ALL and a bad protocol leave the setup alone |
| Session.Session.HandlePort | server/postlogin.c:988-1024 | replaces any earlier setup by the address exactly if it may be used, else by none |
| Session.Session.OpenData | server/vsftpd-3.0.3/ftpdataio.c:230-245 | the descriptor is stored; the bug check fires exactly if one is there |
| Session.Session.DisposeData | server/vsftpd-3.0.3/ftpdataio.c:55-107 | TLS and then the descriptor are closed; an abort or a time-out is reported; the bug check fires exactly without a descriptor |
| Session.Session.Connect | server/vsftpd-3.0.3/ftpdataio.c:109-157 | a connection exactly if the peer allows it; the privileged check fires exactly for a reserved port, and the process ends exactly if the port to connect from cannot be bound; the privileged calls and the slave are told so |
| Session.Session.Secure | server/vsftpd-3.0.3/ftpdataio.c:159-193 | the handshake, if TLS is on; its state check fires exactly if TLS state is left over |
| Session.Session.GetRemoteFd | server/postlogin.c:1456-1484 | on success the connection is open, secured if asked for; on failure it is gone; the calls made and what was asked of the slave |
| Session.Session.ChecksOk | server/postlogin.c:1926-1943 | a transfer may start exactly with a setup and, if forced, TLS |
| Session.Session.TransferAndCleanup | server/postlogin.c:751-809 | afterwards nothing is open, the setup is gone, and a success was logged exactly if everything succeeded; the calls made and what was asked of the slave |
| Session.Session.Move | server/vsftpd-3.0.3/ftpdataio.c:440-461 | a secured transfer asks the slave once for each chunk, to read or to write, within its limits |
| Session.Session.HandleRetr | server/postlogin.c:666-809 | the setup is used up exactly if the connection is reached; the restart position always; the log gets the right verdict; status, calls and what is asked of the slave are those of the command |
| Session.Session.ChangeOwner | server/postlogin.c:1096-1108 | the owner is changed by a privileged call exactly for an anonymous session so configured |
| Session.Session.HandleUpload | server/postlogin.c:1032-1202 | the same for uploads, with the change of owner and the slave asked to read |
| Session.Session.HandleList | server/postlogin.c:817-963 | the same for listings, which are not logged |
| Session.Session.HandleRest | server/postlogin.c:1294-1307 | the restart position, zero for a negative one |
| Session.Session.HandleType | server/postlogin.c:966-986 | the transfer type asked for |
| Session.Session.HandleRnfr | server/postlogin.c:1309-1340 | the name is remembered exactly if it exists and may be touched; a failure is logged |
| Session.Session.HandleRnto | server/postlogin.c:1342-1382 | an attempt uses the name up, a refusal does not |
| Session.Session.Dispatch | server/postlogin.c:133-471 | each command changes status, setup, flags, restart position, transfer type, pending rename and pending entry, and makes calls and uses, as it means and not otherwise |
| Session.Session.Execute | server/postlogin.c:133-481 | from prompt to prompt: the status is that of the command, in both directions; the next state, the lines of the log, the privileged calls and what is asked of the slave are those it means; nothing is left open |
| Session.Session.Run | server/postlogin.c:133-481 | over every command sequence: the commands are executed up to the first that ends the process, and all of them, ending at a prompt, exactly if none does; entries and connections are closed as often as opened; without promiscuous ports no check fires; the SSL slave was asked in order and within its limits, and some run of the relay does exactly that and ends clean; the privileged calls are those of one process, and some run of the two processes gives exactly their answers |
| SessionSpec.ExitsIff | server/postlogin.c:133-481 | the process leaves its loop at a command exactly if it is QUIT; or a PASV or EPSV carried out cannot bind; or a transfer reaches its connection with a port to connect from that cannot be bound, or makes it and runs out of time or fails the handshake where sessions must be reused |
| SessionSpec.ReachesIff | server/postlogin.c:666-1202 | a data connection is attempted exactly by a permitted transfer or listing with a setup and, if forced, TLS; a download not in ASCII mode from a restart position |
| SessionSpec.CheckFailsIff | server/vsftpd-3.0.3/privops.c:49-52 | a check stops the process exactly if a connection to a reserved port is reached |
| SessionSpec.SuccessIff | server/postlogin.c:666-1382 | the log gains a success exactly for work that was done |
| SessionSpec.FailureIff | server/postlogin.c:474-477 | the log gains at most one line, and a failure exactly for every other attempt that opened an entry, directories aside |
| SessionSpec.PortAfter | server/postlogin.c:988-1024 | when an address is set up after a command, and which |
| SessionSpec.ListeningAfter | server/postlogin.c:585-664 | when a listener is there after a command |
| SessionSpec.MinorMeans | server/postlogin.c:966-986 | REST, TYPE, RNFR, RNTO, PROT and the others change one thing each and nothing else, make no privileged call and ask nothing of the slave |
| SessionSpec.SetupMeans | server/postlogin.c:585-664 | what the commands that set a connection up change, and their calls |
| SessionSpec.CallsSpelled | server/postlogin.c:1456-1484 | the privileged calls of a transfer, one by one, with PASV and with PORT |
| SessionSpec.UsesSpelled | server/vsftpd-3.0.3/ftpdataio.c:159-193 | what a secured transfer asks of the slave, one by one |
| Session.ReservedPortStops | server/vsftpd-3.0.3/privops.c:49-52 | with promiscuous ports every reserved port is taken and stops the process at the next listing |
| Throttle.SleepEnough | server/vsftpd-3.0.3/ftpdataio.c:284-289 | the pause computed from the truncated rate brings the call below one byte a second above the limit |
| Throttle.DelayBounds | server/vsftpd-3.0.3/ftpdataio.c:266-291 | with a clock that moves forward a call within the limit is not delayed, and one over it until at most bytes / max seconds have passed, and less than a max-th of the interval short of that, plus the overrun |
| Throttle.WithinIffFair | server/vsftpd-3.0.3/ftpdataio.c:266-291 | a call keeps to the limit for every overrun of the sleep exactly if the clock moved forward or the transfer was large enough |
| Throttle.RunWithin | server/vsftpd-3.0.3/ftpdataio.c:247-292 | any run moves fewer than (max + 1) bytes for each second that passes, pauses included |
| Throttle.Limiter.HandleIo | server/vsftpd-3.0.3/ftpdataio.c:247-292 | the handler computes the start of the next interval and marks progress, exactly for bytes moved on the data connection |
| Throttle.Limiter.Transfer | server/vsftpd-3.0.3/ftpdataio.c:247-292 | the handler run over a whole transfer keeps both bounds |
| Throttle.TransferWithin | server/vsftpd-3.0.3/ftpdataio.c:271-291 | counted from its own begin a transfer exceeds the bound by at most the bytes of its first call, whose interval reaches back before the transfer |
| Throttle.IdleExcess | server/vsftpd-3.0.3/ftpdataio.c:271-285 | that excess is real: after enough idle time a first call of any size passes without a pause |
| Packet.DecodeEncode | other/analyze_tpms2.c:461-503 | differential Manchester decoding undoes encoding, for every packet |
| Packet.EncodeDecode | other/analyze_tpms2.c:461-503 | encoding undoes decoding exactly on bit strings with a transition in every symbol |
| Packet.DecodeMeans | other/analyze_tpms2.c:461-503 | a symbol is 1 exactly if the line does not change at its start |
| Packet.SwappedAcceptedIff | other/analyze_tpms2.c:429-448 | with the two frequencies swapped, a packet that would be accepted is refused exactly if its first measured half-bit was not in doubt |
| Packet.SwappedSymbols | other/analyze_tpms2.c:429-503 | otherwise it is read with exactly symbol 2 wrong |
| Packet.SwappedReport | other/analyze_tpms2.c:752-791 | so it is reported with the same pressure and temperature and another address, off by the top bit |
| Packet.Repair | other/analyze_tpms2.c:470-488 | agreeing half-bits are refused exactly if both are certain; otherwise only the less certain one is flipped, and only if doubtful |
| Packet.Settle | other/analyze_tpms2.c:471-488 | the branches of the source take exactly that decision: they give the packet up exactly if the halves agree and neither confidence is below 0.25 |
| Packet.ReceivedIff | other/analyze_tpms2.c:339-384 | a packet is received exactly if every pair of its half-bits is |
| Packet.ReceivedBits | other/analyze_tpms2.c:429-488 | the same of the bits that were asked for, one by one: none is lost, and no two of a pair agree with a confidence of 0.25 or more |
| Packet.ReceivedHalves | other/analyze_tpms2.c:461-503 | and which half-bits come out |
| Packet.ComplementNumber | other/analyze_tpms2.c:410-416 | fields that differ in every digit are complements |
| Packet.PlausibleFields | other/analyze_tpms2.c:401-425 | an accepted packet carries the complement of its pressure byte and reports 0 to 537.5 kPa |
| Packet.ValidatePacket | other/analyze_tpms2.c:401-425 | true exactly for plausible packets: symbol 68 is 1, the second byte is the complement of the pressure byte, and that is at least 40 |
| Packet.Decoder.GetSecondSymbol | other/analyze_tpms2.c:429-459 | the first measured half-bit joins the known ones, or the packet is refused |
| Packet.Decoder.GetSymbol | other/analyze_tpms2.c:461-503 | one more symbol behind what the buffers hold, or the packet is refused |
| Packet.Decoder.StoreHalves | other/analyze_tpms2.c:490-493 | two half-bits and the terminator stay inside the buffer |
| Packet.Decoder.GetPacketSymbols | other/analyze_tpms2.c:339-397 | a packet exactly if every pair was accepted and the symbols are plausible; then the 138 half-bits and 69 symbols are stored as digits and the half-bits are the code of the symbols |
| Packet.Decoder.Field | other/analyze_tpms2.c:752-758 | the getters' loop reads the binary number of a field |
| Packet.Decoder.Report | other/analyze_tpms2.c:752-791 | the 28-bit address, a pressure of 2.5 kPa for each unit above 40, a temperature from -40 to 215 |

## Left out

- Rounding: the transform, the throttle and the pressure are exact; `sqrt` is exact; conversion of an out-of-range rate to `unsigned int` is not modelled.
- Fft.Transform: the exponent m is a natural number; the source's negative exponents act like zero.
- Ascii.FileSend: the retries of the SSL library while it wants to read or write are not modelled; sending a file without conversion by sendfile is absent.
- Integer overflow of `long` and `unsigned int` counters.
- SslRelay.RelaySafe: both sides are transition functions over two queues instead of imperative loops, so that every interleaving can be stated; the partial reads and writes below one message are not modelled.
- GlobBraces.GentleExact: for filters with braces and stars the condition is sufficient only, because one alternative may cover the names that another loses; the cost is an upper bound of the turns, so a filter beyond it may still be matched.
- GlobBraces.BracesExactIff: leaves nested braces out, where the condition is not needed, as GlobBraces.NestedExample shows.
- Seccomp.RuleTable.Add: the eight parallel static arrays are one array of rows; the setup functions are lists of rules.
- Session.Session.Run: replies, which the slave takes at any time and the relay's results allow anywhere, are not recorded; the login exchange of the two-process model is absent.
- Session.Session.Dispatch: the tunables and lists that forbid commands, the texts of replies and the failure of a control write, which ends the process, are not modelled; the handlers between which no promise differs (PWD, CWD, NOOP, STAT, SIZE and so on) are one command, as are MKD, RMD, DELE and SITE CHMOD.
- Session.Session.HandlePasv: an invalid `pasv_address`, which ends the process, is not modelled.
- The rule that EPSV ALL forbids other setup commands (RFC 2428): the code does not gate EPRT, and the model follows the code.
- Signals as interruptions: an abort or a time-out during a transfer is an outcome of that transfer; HTTP mode is absent.
- Listener.Server.Accept: signal delivery inside the accept loop is a step between accepts; address and process limits are applied by the child and absent.
- LineReader.ReadLine: a failing peek, which ends the process, is absent.
- Reply.BuildLine: the decimal status is rendered by a model of the number formatting of the C library.
- Packet.Decoder.Report: Fahrenheit and psi conversions and the hexadecimal string are absent, as they depend on rounding and printing.
- Sample acquisition, filters, phase arithmetic and the sample cache of the decoder: floating point over a library that is not part of this model.
- Buffer growth in `str.c`, address parsing, configuration parsing, PAM, ptrace sandbox, directory listing and the web site: wrappers, tables or easy members.
