# fli4l verification

A Dafny model of the parts of the fli4l router distribution that hold real algorithms or protocols, with
proofs about every input, every run or every reachable state.  `dafny verify dfyconfig.toml` checks it.

- **File transfer between imond and flicp** (`Transfer`, `Download`, `Upload`).  Server and client are a step system with
  a byte stream per direction and reads that return any non-empty part of what is in flight.  Both directions
  are proved safe, free of deadlock and terminating.  The client acknowledges every `recv`, not every block,
  so a download lets the server run ahead: `OvershootIff` says exactly when the client then swallows the
  status line that follows the file.
- **Streaming MD5** (`Md5Spec`, `Md5Rounds`, `Md5`, `Md5Laws`, `Md5Schedule`, `Md5Tests`).
  `Md5Spec` writes out sections 3.1 to 3.5 of RFC 1321;
  all four implementations of the rounds and the buffering context are proved to compute it, and the test
  suite of section A.5 is derived from it.
- **mmencode** (`QuotedPrintable`, `QuotedLines`, `QuotedLaws`, `Base64`, `Base64Lines`, `Base64Laws`;
  sections 6.7 and 6.8 of RFC 2045).
  Round trips for every byte sequence, the shape of the emitted lines, and what the decoders make of any text.
- **petools** (`Checksum`, `PeFile`, `PeStamp`, `PeLayout`).  Exactly when the piecewise 32-bit checksum equals the 16-bit ones'
  complement sum of the whole image, and when it survives stamping, flushing and reloading.
- **netcalc** (`BitNat`, `NetCalc`, `NetRange`, `DnsRev`, `DnsNames`, `DnsRead`, `DnsBlocks`; section 3.1 of RFC 4632,
  section 3.5 of RFC 1035, section 2.5 of RFC 3596).  In-place bit loops on addresses, blocks as ranges of
  numbers, and reverse names that partition a block.
- **mkpimage** (`CrcTable`, `Crc`, `CrcDivision`, `ArmBranch`).  The literal CRC table, the table-driven loop,
  the bit-serial register and polynomial long division agree; the ARM branch arrives exactly within its range.
- **Super-I/O GPIO drivers** (`GpioLines`, `SuperIo`, `Nct5104d`, `W83627`, `W83627Pins`).  Line numbers as ranks of mask bits, usage
  masks and banks over whole runs, and which ports the command sequences switch.
- **pppd multilink plugin** (`MpLink`) and **add-days** (`UtcOffset`).

Bytes are integers from 0 to 255; C's fixed widths are written out wherever a value can leave them.  Each
loop of the source is a method with invariants, tied by its `ensures` to a function whose properties are the
lemmas.  Files are byte sequences; clocks, sockets, partial reads, `run_program` results and whether the
Super-I/O chip can be entered are parameters or nondeterministic steps.

## Where the code and its promises differ

- flicp's download loop can report an error, and store part of the status line, for every file of two
  bytes or more (`Download.OvershootIff`).
- The MD5 byte counter misses carries for single calls of 4 GiB and more, except in the case `Md5.CountIff` gives
  (`Md5.CountFails`).
- The PE checksum ignores the last bytes of a file whose size is not a multiple of 4 (`Checksum.FoldedSum`,
  `PeFile.ChecksumOfImage`), and half words at the ends of regions of unaligned headers (`PeFile.ChecksumOfEven`).
- A time stamp set inside the MZ header makes the next checksum update disagree with the stored checksum, unless
  the new stamp equals the old one modulo 65535 (`PeStamp.SecondUpdateIff`, `PeStamp.TinyFails`).
- The branch of imond's receive command for a missing shadow entry is never taken; the upload is accepted there
  (`Upload.NoShadowEntry`).
- The disable sequence of the third W83627HF port leaves the port on (`W83627.SwitchesOff`).
- A GPIO request on a busy chip reports success without enabling the bank (`Nct5104d.BusyRequest`), and a last
  free on a busy chip leaves the bank on (`Nct5104d.LastFreeDisables`).
- For a prefix shorter than one entry netcalc prints nothing, or labels in front of a null string, so the names
  cover the block exactly from one entry on (`DnsBlocks.CoversIff`).
- A failed fork, and nothing else, wedges the multilink plugin for good (`MpLink.WedgedIff`), possibly at odds
  with the link (`MpLink.IdleAgreement`).
- The add-days trick overflows an int from 25 October 2036 on (`UtcOffset.FitsIff`).

## Model

| member | source | states |
|---|---|---|
| `Download.DownloadSafety` | src/packages/src/src/fli4l/base/flicp/flicp.c:346-375 | in every run, under every fragmentation: written ++ in flight ++ unsent is the file followed by the trailer, the local file is a prefix of that, and a client that stops on the announced size has exactly the server's file; the server never aborts; nothing but ACK goes back, at least one for every 1024 bytes received; and the file leaves the server in blocks of 1024 bytes |
| `Download.StepKeepsInv` | src/packages/src/src/fli4l/base/imond-dev/user.c:434-460 | every step keeps the invariant: bytes conserved, at most 1024 bytes received per acknowledgement, acknowledgements consumed against blocks written |
| `Download.InFlightWhileWaiting` | src/packages/src/src/fli4l/base/flicp/flicp.c:356-369 | a server waiting with no acknowledgement under way still has payload in flight that the client is going to read |
| `Download.DownloadNeverBlocks` | src/packages/src/src/fli4l/base/imond-dev/user.c:437-460 | no reachable unfinished state has both parties blocked; the enabled action is given |
| `Download.StepDecreasesMeasure` | src/packages/src/src/fli4l/base/imond-dev/user.c:437-460 | each step strictly decreases a natural-number measure |
| `Download.DownloadTerminates` | src/packages/src/src/fli4l/base/flicp/flicp.c:356-369 | every run has at most 4n + 2t + 2 steps for a file of n and a trailer of t bytes, and a run that cannot be extended has finished on both sides |
| `Download.OvershootIff` | src/packages/src/src/fli4l/base/flicp/flicp.c:371-388 | the client can count past the announced size, the branch its error message reports, if and only if the file has two or more bytes and a trailer follows |
| `Download.AheadToTooEarly` | src/packages/src/src/fli4l/base/flicp/flicp.c:356-369 | once an acknowledgement has been sent for part of a block, a run exists in which the server sends its trailer while payload is still in flight |
| `Download.SmallFileStaysInStep` | src/packages/src/src/fli4l/base/imond-dev/user.c:437-460 | with at most one byte of payload the server never runs ahead of the client |
| `Upload.UploadSafety` | src/packages/src/src/fli4l/base/imond-dev/user.c:333-369 | in every run with a non-empty file, a non-zero password_valid and a writable target: data and acknowledgements are never in flight together, at most 1024 bytes and one ACK are outstanding, the stored content is a prefix of the file, the server is finished exactly when acknowledgement number ceil(n/1024) + 1 has been sent, and then the content is the file |
| `Upload.StepKeepsInv` | src/packages/src/src/fli4l/base/flicp/flicp.c:288-320 | every step of client or server keeps the token invariant and the counters of both sides aligned |
| `Upload.RefusedUploadAborts` | src/packages/src/src/fli4l/base/imond-dev/user.c:2847-2858 | if the file is empty, password_valid returns 0 or the target is unwritable: the answer is NAK, nothing is stored, a run has at most two steps, and every maximal one ends with the client aborted |
| `Upload.NoShadowEntry` | src/packages/src/src/fli4l/base/imond-dev/user.c:2854-2864 | with no shadow entry for root, where password_valid returns -1, the upload is accepted and the file is stored |
| `Upload.UploadNeverBlocks` | src/packages/src/src/fli4l/base/imond-dev/user.c:333-369 | from every state satisfying the invariant some party can move until both are through or the client waits for a newline that is not coming |
| `Upload.StepDecreasesMeasure` | src/packages/src/src/fli4l/base/flicp/flicp.c:301-320 | each step of an accepted upload strictly decreases a natural-number measure |
| `Upload.UploadTerminates` | src/packages/src/src/fli4l/base/flicp/flicp.c:301-322 | every run has at most 11n + t + 8 steps for a file of n and a status line of t bytes, a maximal one has delivered the whole file, and the client is through if the status line has a newline behind its first two bytes |
| `Upload.AnswerIff` | src/packages/src/src/fli4l/base/flicp/comi.c:70-82 | the closing get_answer finds its newline in every maximal run if and only if the status line has one behind its first two bytes, which the read of up to three bytes for the last acknowledgement may swallow |
| `Upload.StatusLineSuffices` | src/packages/src/src/fli4l/base/imond-dev/user.c:3251-3333 | the status line imond writes after a stored file has one there |
| `Md5Rounds.SelectorsMatch` | src/packages/src/src/fli4l/base/imond-dev/md5.c:225-228 | the rewritten selectors equal F, G, H, I of section 3.4 of RFC 1321 for all words |
| `Md5Rounds.WordIndicesMatch` | src/packages/src/src/fli4l/base/imond-dev/md5.c:264-271 | the word order table is the closed form of section 3.4 for all 64 operations |
| `Md5Rounds.RotationsMatch` | src/packages/src/src/fli4l/base/imond-dev/md5.c:273-280 | the rotation table, indexed by round and operation, is the rotation of section 3.4 |
| `Md5Rounds.Rounds3` | src/packages/src/src/fli4l/base/imond-dev/md5.c:318-347 | the single 64-step switch loop with rotating registers gives the 64 operations of section 3.4 |
| `Md5Rounds.Rounds2` | src/packages/src/src/fli4l/base/imond-dev/md5.c:348-392 | the four register-rotating loops give the same |
| `Md5Rounds.InPlaceRound` | src/packages/src/src/fli4l/base/imond-dev/md5.c:430-438 | a round of four times four in-place OPs driven by the constant and index tables equals 16 operations |
| `Md5Rounds.Rounds1` | src/packages/src/src/fli4l/base/imond-dev/md5.c:424-533 | the table-driven in-place rounds give the same |
| `Md5Rounds.Op` | src/packages/src/src/fli4l/base/imond-dev/md5.c:461-469 | one in-place OP on rotated register names is one operation |
| `Md5Rounds.Rounds0` | src/packages/src/src/fli4l/base/imond-dev/md5.c:440-550 | the fully unrolled OP sequence with literal constants gives the same |
| `Md5.CountBelow` | src/packages/src/src/fli4l/base/imond-dev/md5.c:291-293 | for every call below 4 GiB the two-word counter stays the byte count modulo 2^64 |
| `Md5.CountIff` | src/packages/src/src/fli4l/base/imond-dev/md5.c:291-293 | for a call of any length the counter stays right if and only if len < 2^32 or the high word has to grow by exactly 1 modulo 2^32 |
| `Md5.CountFails` | src/packages/src/src/fli4l/base/imond-dev/md5.c:291-293 | a first call of 8 GiB leaves the counter wrong |
| `Md5.Context.constructor` | src/packages/src/src/fli4l/base/imond-dev/md5.c:56-65 | a fresh context stands for the empty input |
| `Md5.Context.ProcessBlock` | src/packages/src/src/fli4l/base/imond-dev/md5.c:232-566 | registers become the fold of the RFC block function over the data; the counter grows by its length |
| `Md5.Context.TopUp` | src/packages/src/src/fli4l/base/imond-dev/md5.c:188-205 | topping up a non-empty buffer keeps hashed blocks ++ buffer equal to the input so far, with a whole block possibly waiting |
| `Md5.Context.HashBuffer` | src/packages/src/src/fli4l/base/imond-dev/md5.c:196-201 | the whole blocks in the buffer are hashed and the rest is moved to the front, nothing lost |
| `Md5.Context.StoreRest` | src/packages/src/src/fli4l/base/imond-dev/md5.c:207-218 | the rest of a call is hashed or kept so that the context stands for the longer input |
| `Md5.Context.ProcessBytes` | src/packages/src/src/fli4l/base/imond-dev/md5.c:183-219 | a context standing for an input stands for input ++ data afterwards, for every len < 2^32 |
| `Md5.Context.AppendPadding` | src/packages/src/src/fli4l/base/imond-dev/md5.c:83-97 | what is written behind the pending bytes is 0x80, zeros and the bit count |
| `Md5.Context.Finish` | src/packages/src/src/fli4l/base/imond-dev/md5.c:72-111 | the digest of a context standing for an input is the RFC 1321 digest of that input |
| `Md5.LengthMatches` | src/packages/src/src/fli4l/base/imond-dev/md5.c:93-95 | the two words written from the byte counter are the 64-bit little-endian bit length |
| `Md5.PaddingMatches` | src/packages/src/src/fli4l/base/imond-dev/md5.c:83-97 | hashed ++ what finish processes is the padded message of sections 3.1 and 3.2 |
| `Md5.DigestOfPieces` | src/packages/src/src/fli4l/base/imond-dev/md5.c:56-219 | for every message and every way of cutting it into calls, init, process and finish give the RFC digest of the concatenation |
| `Md5.FillBlock` | src/packages/src/src/fli4l/base/imond-dev/md5.c:135-143 | the inner loop gathers a full block from arbitrary partial reads, or everything up to the end of file |
| `Md5.StreamDigest` | src/packages/src/src/fli4l/base/imond-dev/md5.c:116-163 | md5_stream gives the RFC digest of the stream's contents under every pattern of partial reads, and an error exactly if the stream ends in a read error |
| `Md5Laws.DigestAt` | src/packages/src/src/fli4l/base/imond-dev/md5.c:105-108 | byte 4i + j of the digest is bits 8j to 8j + 7 of the i-th of A, B, C, D |
| `Md5Laws.RotateBits` | src/packages/src/src/fli4l/base/imond-dev/md5.c:305-305 | bit k of a word rotated by s is its bit k - s modulo 32 |
| `Md5Laws.WordOfBytes` | src/packages/src/src/fli4l/base/imond-dev/md5.c:313-316 | the four bytes a word is written as are read back as that word |
| `Md5Laws.WordsOfBytes` | src/packages/src/src/fli4l/base/imond-dev/md5.c:313-316 | the words of a block are those whose bytes it holds, in order |
| `Md5Tests.Empty` | src/packages/src/src/fli4l/base/imond-dev/md5.c:56-111 | the digest of the empty message, as section A.5 of RFC 1321 gives it |
| `Md5Tests.OneA` | src/packages/src/src/fli4l/base/imond-dev/md5.c:56-111 | the digest of "a", as section A.5 of RFC 1321 gives it |
| `Md5Tests.Abc` | src/packages/src/src/fli4l/base/imond-dev/md5.c:56-111 | the digest of "abc", as section A.5 of RFC 1321 gives it |
| `Md5Tests.Message` | src/packages/src/src/fli4l/base/imond-dev/md5.c:56-111 | the digest of "message digest", as section A.5 of RFC 1321 gives it |
| `Md5Tests.Lower` | src/packages/src/src/fli4l/base/imond-dev/md5.c:56-111 | the digest of the 26 small letters, as section A.5 of RFC 1321 gives it |
| `Md5Tests.Alnum` | src/packages/src/src/fli4l/base/imond-dev/md5.c:56-111 | the digest of the 62 letters and digits, as section A.5 of RFC 1321 gives it |
| `Md5Tests.Digits` | src/packages/src/src/fli4l/base/imond-dev/md5.c:56-111 | the digest of eight times "1234567890", as section A.5 of RFC 1321 gives it |
| `QuotedPrintable.FromHack` | src/packages/src/src/fli4l/mmencode/src/codes.c:304-334 | the look-ahead for "From " with its one-character pushback emits and consumes what its specification says, at every position and at end of input |
| `QuotedPrintable.ToQp` | src/packages/src/src/fli4l/mmencode/src/codes.c:279-352 | the encoder's loop computes Encode |
| `QuotedLaws.QuotedDigits` | src/packages/src/src/fli4l/mmencode/src/codes.c:289-291 | a quoted byte is an equals sign and its two hexadecimal digits in upper case |
| `QuotedLaws.Characters` | src/packages/src/src/fli4l/mmencode/src/codes.c:282-348 | the characters the codec tells apart are newline, tab, blank, dot, equals sign and the five of the From line |
| `QuotedLaws.TextCopied` | src/packages/src/src/fli4l/mmencode/src/codes.c:282-351 | a text of lines of at most 72 printable characters or tabs, without equals sign, leading dot, trailing blank or (behind the first) leading "From ", is left alone |
| `QuotedPrintable.FromQp` | src/packages/src/src/fli4l/mmencode/src/codes.c:354-436 | the decoder's loop with its lazy newline computes Decode, for every text |
| `QuotedLaws.DecodeSpelled` | src/packages/src/src/fli4l/mmencode/src/codes.c:251-260 | two hexadecimal digits behind an equals sign, in either case, are decoded to the byte they spell |
| `QuotedLaws.DecodeMisspelled` | src/packages/src/src/fli4l/mmencode/src/codes.c:411-420 | a second character that is no digit makes the byte 0xFF, a first one 0xF0 plus the second digit |
| `QuotedLaws.DecodeCutShort` | src/packages/src/src/fli4l/mmencode/src/codes.c:408-418 | an equals sign with a digit missing at the end of the text is decoded to 0xFF |
| `QuotedLaws.DecodeNewline` | src/packages/src/src/fli4l/mmencode/src/codes.c:422-425 | a newline that is not behind an equals sign stays |
| `QuotedPrintable.LazyNewline` | src/packages/src/src/fli4l/mmencode/src/codes.c:404-434 | a postponed newline is a newline written in front of the rest |
| `QuotedPrintable.DecodePlainTurn` | src/packages/src/src/fli4l/mmencode/src/codes.c:282-345 | decoding what one turn of the encoder emits gives back what it consumed |
| `QuotedPrintable.RoundTripFrom` | src/packages/src/src/fli4l/mmencode/src/codes.c:279-436 | decoding the encoding gives the text back from every state of the encoder's loop |
| `QuotedPrintable.RoundTrip` | src/packages/src/src/fli4l/mmencode/src/codes.c:279-436 | fromqp(toqp(s)) == s for every byte sequence |
| `QuotedLines.TurnKeepsText` | src/packages/src/src/fli4l/mmencode/src/codes.c:282-351 | one turn keeps the column equal to the length of the unfinished line, at most 72, and the line free of a leading dot or a "From " |
| `QuotedLines.EncodedLines` | src/packages/src/src/fli4l/mmencode/src/codes.c:282-351 | every line toqp emits has at most 76 characters, all printable or tabs, does not end in a blank or tab, does not start with a dot and, after the first, not with "From " |
| `Base64.NextCharIn` | src/packages/src/src/fli4l/mmencode/src/codes.c:50-71 | each call delivers the next character of the CRLF-expanded input, or end of file exactly when none is left |
| `Base64Lines.PlainLetters` | src/packages/src/src/fli4l/mmencode/src/codes.c:73-116 | character i of the plain text is the letter for bits 6i to 6i+5 of the input, zeros behind its end, or a pad if all of them lie there |
| `Base64.To64` | src/packages/src/src/fli4l/mmencode/src/codes.c:73-99 | the encoder's loop computes Encode of the expanded input |
| `Base64Laws.Alphabet` | src/packages/src/src/fli4l/mmencode/src/codes.c:21-23 | the letters are A to Z, a to z, 0 to 9, plus and slash, the pad is the equals sign |
| `Base64Lines.EncodeWraps` | src/packages/src/src/fli4l/mmencode/src/codes.c:78-97 | to64's output is the plain base64 text cut into lines of 72 characters, the last shorter, each closed by a newline |
| `Base64Lines.PlainText` | src/packages/src/src/fli4l/mmencode/src/codes.c:101-116 | four non-blank characters for every three bytes or part of them |
| `Base64Lines.PlainConcat` | src/packages/src/src/fli4l/mmencode/src/codes.c:78-94 | groups of three bytes are encoded independently of what follows |
| `Base64.SextetsJoin` | src/packages/src/src/fli4l/mmencode/src/codes.c:101-247 | the decoder's shifts put back the bytes the encoder's shifts took apart |
| `Base64.SkipSpace` | src/packages/src/src/fli4l/mmencode/src/codes.c:217-225 | the next character that is not white space, or end of file |
| `Base64.From64` | src/packages/src/src/fli4l/mmencode/src/codes.c:178-248 | the decoder's loop computes Decode for every text, including malformed, padded and truncated ones |
| `Base64Laws.IndexIs` | src/packages/src/src/fli4l/mmencode/src/codes.c:24-35 | only the letters of the alphabet have a value, each its position |
| `Base64Laws.GroupBytes` | src/packages/src/src/fli4l/mmencode/src/codes.c:231-245 | the three bytes of a group without pads are the bits of its letters one behind the other, a character that is no letter counting as all ones |
| `Base64Laws.PadGroup` | src/packages/src/src/fli4l/mmencode/src/codes.c:227-245 | a pad cuts the group to two, one or no bytes |
| `Base64Laws.PadEnds` | src/packages/src/src/fli4l/mmencode/src/codes.c:206-206 | data behind a pad is ignored |
| `Base64Laws.CutShort` | src/packages/src/src/fli4l/mmencode/src/codes.c:223-226 | a group cut short by the end of the text is dropped, with the final flush |
| `Base64Laws.CollapseIs` | src/packages/src/src/fli4l/mmencode/src/codes.c:144-167 | with portable newlines any bytes come out with every CR LF replaced by LF and nothing else changed, a pending CR in front |
| `Base64Laws.CollapseUnflushed` | src/packages/src/src/fli4l/mmencode/src/codes.c:144-167 | without the final flush a held-back CR is lost, and nothing else |
| `Base64Laws.PutNegative` | src/packages/src/src/fli4l/mmencode/src/codes.c:144-167 | a value below zero, from characters that are no base64, is written as its low byte |
| `Base64Laws.LoneNewline` | src/packages/src/src/fli4l/mmencode/src/codes.c:164-164 | "YQpi" is decoded to a, newline, b in both modes |
| `Base64.CollapseExpanded` | src/packages/src/src/fli4l/mmencode/src/codes.c:144-167 | almostputc undoes nextcharin for every mix of CR, LF and CRLF, whether or not a CR is pending |
| `Base64.GroupsOfEncoding` | src/packages/src/src/fli4l/mmencode/src/codes.c:73-247 | the groups read from encoded text are the encoded bytes, whatever the column it was started in |
| `Base64.SpacesIgnored` | src/packages/src/src/fli4l/mmencode/src/codes.c:189-225 | white space inserted anywhere in any text does not change its decoding |
| `Base64.RoundTrip` | src/packages/src/src/fli4l/mmencode/src/codes.c:50-248 | from64(to64(s)) == s for every byte sequence, with and without portable newlines |
| `Checksum.ComputeChecksum` | src/packages/src/src/fli4l/petools/chksum.c:36-47 | the word loop computes the end-around-carry sum of the whole words |
| `Checksum.Sum32Represents` | src/packages/src/src/fli4l/petools/chksum.c:36-47 | the 32-bit sum is congruent to the plain sum of the 16-bit words of all whole 32-bit words modulo 65535, and zero only if that is |
| `Checksum.FoldRepresents` | src/packages/src/src/fli4l/petools/chksum.c:49-54 | folding keeps the congruence and the distinction of 0 from 0xFFFF |
| `Checksum.FoldedAgainst` | src/packages/src/src/fli4l/petools/chksum.c:36-54 | the folded sum of any pieces equals the 16-bit ones' complement sum of any data if and only if the word sums agree modulo 65535 and in being zero |
| `Checksum.FoldedSum` | src/packages/src/src/fli4l/petools/chksum.c:36-54 | accumulated and folded, the checksum equals the 16-bit ones' complement sum of all the data, including the representative of zero, plus the size modulo 2^32, if and only if the bytes behind the last whole 32-bit word, which are dropped, add up as words to 0 or, unless all else is zero, to 0xFFFF |
| `Checksum.DroppedWord` | src/packages/src/src/fli4l/petools/chksum.c:40-40 | a trailing half word of 1 is lost |
| `Checksum.Sum32Concat` | src/packages/src/src/fli4l/petools/chksum.c:36-47 | summing pieces of whole words equals summing their concatenation |
| `PeFile.Open` | src/packages/src/src/fli4l/petools/common.c:27-127 | an image is accepted exactly if it has the signatures, sizes and magic demanded, and the handle then holds its three headers |
| `PeLayout.Layout` | src/packages/src/src/fli4l/petools/pe.h:25-79 | every header size and field offset is the sum of the field sizes in front of it |
| `PeLayout.OffsetField` | src/packages/src/src/fli4l/petools/pe.h:25-29 | the PE offset is the little-endian number in bytes 60 to 63 |
| `PeLayout.FieldsOfImage` | src/packages/src/src/fli4l/petools/petsset.c:45-55 | in a stamped image bytes 8 to 11 behind the PE offset are the stamp, bytes 88 to 91 the checksum, and every other byte is the old one |
| `PeLayout.ZeroedImage` | src/packages/src/src/fli4l/petools/chksum.c:87-87 | the image that is summed up is the flushed one with those checksum bytes zero |
| `PeFile.Handle.ReadAndCompute` | src/packages/src/src/fli4l/petools/chksum.c:56-75 | reading a region in chunks of 4096 bytes sums the region |
| `PeFile.Handle.UpdateChecksum` | src/packages/src/src/fli4l/petools/chksum.c:77-104 | only the checksum field of the header copy changes, to the folded sum of all regions plus the file size |
| `PeFile.Handle.Flush` | src/packages/src/src/fli4l/petools/common.c:129-154 | the file gets the three headers at their offsets and keeps its other bytes |
| `PeFile.Handle.SetTimestamp` | src/packages/src/src/fli4l/petools/petsset.c:45-45 | only the time stamp of the PE header changes |
| `PeFile.PieceSumIsSum` | src/packages/src/src/fli4l/petools/chksum.c:77-104 | in every layout the sum over header copies and file regions is the sum over these regions without the partial word at the end of each |
| `PeFile.PieceSumIsImageSum` | src/packages/src/src/fli4l/petools/chksum.c:77-104 | for aligned headers that is the sum over the image that would be flushed |
| `PeFile.ChecksumIff` | src/packages/src/src/fli4l/petools/chksum.c:77-104 | in every layout, unaligned or overlapping, the checksum computed is the reference checksum of the whole flushed image with a zero checksum field if and only if the summed regions and the image have the same word sum modulo 65535 and in being zero |
| `PeFile.ChecksumOfEven` | src/packages/src/src/fli4l/petools/chksum.c:77-104 | for headers behind the MZ header, of even offset and size, it is the reference checksum if and only if the bytes dropped at the ends of the gap, the optional header and the rest add up as words to a multiple of 0xFFFF |
| `PeFile.ChecksumOfImage` | src/packages/src/src/fli4l/petools/chksum.c:77-104 | for aligned headers it is the reference checksum if and only if the bytes of the file behind its last whole 32-bit word add up as words to 0 or 0xFFFF |
| `PeFile.ReloadFlushed` | src/packages/src/src/fli4l/petools/common.c:129-154 | a flushed image is accepted again with the same headers if and only if flushing left the MZ header alone, as it does whenever the PE header lies behind it |
| `PeFile.FlushedParts` | src/packages/src/src/fli4l/petools/common.c:129-154 | in every layout the PE and optional header are in place afterwards and every byte outside the headers is the old one |
| `PeFile.UpdateIsStable` | src/packages/src/src/fli4l/petools/chksum.c:77-104 | update, flush, load and update again reproduces the stored checksum and headers, for all headers that leave the MZ header alone |
| `PeFile.FlushedImage` | src/packages/src/src/fli4l/petools/petsset.c:45-55 | in every layout flushing changes nothing in the file but the stamp and checksum fields |
| `PeFile.StampSpoils` | src/packages/src/src/fli4l/petools/petsset.c:45-55 | a new stamp leaves the MZ header alone if and only if the field lies behind that header or holds the same bytes where it does not |
| `PeStamp.SecondUpdate` | src/packages/src/src/fli4l/petools/petsset.c:45-55 | in every layout whose PE offset field the stamp does not touch, the stamped image is accepted and a second update reproduces the stored checksum if and only if the word sum of the MZ header stays the same modulo 65535 |
| `PeStamp.SecondUpdateIff` | src/packages/src/src/fli4l/petools/petsset.c:45-55 | with the stamp field inside the MZ header at an even offset, in front of the PE offset field, a second update reproduces the stored checksum if and only if the new stamp equals the old one modulo 65535 |
| `PeStamp.TinyFails` | src/packages/src/src/fli4l/petools/petsset.c:45-55 | a 124-byte image is accepted, stamped with 1, and its second checksum differs from the stored one |
| `PeStamp.SetStampAndCheck` | src/packages/src/src/fli4l/petools/petsset.c:45-55 | setting a stamp, updating, flushing, loading and updating again, on any accepted image: nothing else changes, and the checksum is reproduced if the stamp leaves the MZ header alone and, where the PE offset field is untouched, exactly if the header's word sum stays the same modulo 65535 |
| `CrcTable.TableIsDivision` | src/packages/src/src/fbr/buildroot/package/mkpimage/mkpimage.c:104-148 | each of the 256 literal entries is its index divided bit by bit by 0x04c11db7 |
| `Crc.ComputeCrc32` | src/packages/src/src/fbr/buildroot/package/mkpimage/mkpimage.c:150-158 | the byte loop computes Crc32 from any start value |
| `Crc.UpdateIsDivision` | src/packages/src/src/fbr/buildroot/package/mkpimage/mkpimage.c:154-155 | one table step is eight bit-at-a-time division steps |
| `Crc.CrcIsBitSerial` | src/packages/src/src/fbr/buildroot/package/mkpimage/mkpimage.c:150-158 | the table-driven CRC equals feeding the bits most significant first |
| `Crc.Crc32Concat` | src/packages/src/src/fbr/buildroot/package/mkpimage/mkpimage.c:150-158 | the CRC of a concatenation is the CRC of the second part started with the CRC of the first |
| `Crc.CrcLinear` | src/packages/src/src/fbr/buildroot/package/mkpimage/mkpimage.c:150-158 | the CRC is xor-linear in start value and data jointly |
| `CrcDivision.RemainderIsFeed` | src/packages/src/src/fbr/buildroot/package/mkpimage/mkpimage.c:150-158 | polynomial long division of a bit string and the shift register leave the same remainder |
| `CrcDivision.CrcIsRemainder` | src/packages/src/src/fbr/buildroot/package/mkpimage/mkpimage.c:150-158 | the CRC is the remainder of the data, with the start value added to its first bits and 32 zeros behind, divided by the generator polynomial |
| `ArmBranch.Branch` | src/packages/src/src/fbr/buildroot/package/mkpimage/mkpimage.c:163-171 | the instruction is written at its place and no other byte changes |
| `ArmBranch.BranchReaches` | src/packages/src/src/fbr/buildroot/package/mkpimage/mkpimage.c:163-171 | the processor, decoding condition, opcode and signed offset, jumps to the destination if and only if it is word-aligned and within the 24-bit word range |
| `NetCalc.EditBits` | src/packages/src/src/fli4l/base/netcalc.c:325-337 | the sliding-mask loop sets or clears exactly the given bits of the address |
| `NetCalc.Address.ToCIDR` | src/packages/src/src/fli4l/base/netcalc.c:188-243 | succeeds exactly on hole-free masks, and then the prefix length describes the mask |
| `NetCalc.Address.ToNetmask` | src/packages/src/src/fli4l/base/netcalc.c:253-295 | n ones followed by zeros, refused exactly if n exceeds the address length |
| `NetCalc.Address.ToNetwork` | src/packages/src/src/fli4l/base/netcalc.c:305-340 | keeps exactly the bits of the prefix |
| `NetCalc.Address.ToHost` | src/packages/src/src/fli4l/base/netcalc.c:350-381 | keeps exactly the bits behind the prefix |
| `NetCalc.Address.ToBroadcast` | src/packages/src/src/fli4l/base/netcalc.c:391-426 | keeps the prefix and sets every bit behind it |
| `NetCalc.MasksAndLengths` | src/packages/src/src/fli4l/base/netcalc.c:188-295 | masks of the same length in bytes are equal if and only if their prefix lengths are, so the two conversions are mutually inverse |
| `NetCalc.Combine` | src/packages/src/src/fli4l/base/netcalc.c:585-627 | refused exactly if the host part overlaps the netmask; otherwise prefix bits from the network, the others from the host; a refusal leaves the bytes before the first overlapping one combined and no other changed |
| `NetCalc.SplitAndCombine` | src/packages/src/src/fli4l/base/netcalc.c:305-627 | for every address, family and prefix length, combining network(a) with host(a) succeeds and gives a |
| `NetRange.BlockIsRange` | src/packages/src/src/fli4l/base/netcalc.c:305-426 | as numbers, the addresses from network(a) to broadcast(a) are exactly those sharing a's first n bits |
| `DnsRev.EntryByMask` | src/packages/src/src/fli4l/base/netcalc.c:519-521 | masking and shifting yields the byte or nibble the entry stands for |
| `DnsRev.FieldOfByte` | src/packages/src/src/fli4l/base/netcalc.c:555-557 | the reduced mask keeps the prefix bits of the partial entry |
| `DnsRev.ClearLowest` | src/packages/src/src/fli4l/base/netcalc.c:549-554 | each turn takes the lowest remaining bit off the mask |
| `DnsRev.StaysInField` | src/packages/src/src/fli4l/base/netcalc.c:559-569 | the enumeration test holds for exactly 2^k successive values, all of them labels |
| `DnsNames.CompleteEntries` | src/packages/src/src/fli4l/base/netcalc.c:516-542 | the first loop renders the complete entries, last one first, or leaves a null string if there is none, and leaves mask, shift and byte at the partial one |
| `DnsNames.PartialEntry` | src/packages/src/src/fli4l/base/netcalc.c:549-558 | start value and mask of the partial entry |
| `DnsNames.Enumerate` | src/packages/src/src/fli4l/base/netcalc.c:559-569 | terminates with one line per value of the partial entry, in order, with a null string where no entry is complete |
| `DnsNames.ReverseNames` | src/packages/src/src/fli4l/base/netcalc.c:478-575 | for every prefix length: one line per label list, with the suffix of the family; a name if the prefix has a complete entry, a label in front of a null string otherwise, and nothing for prefix length 0 |
| `DnsRead.RenderRead` | src/packages/src/src/fli4l/base/netcalc.c:519-525 | printed labels are read back, digit by digit up to each dot, as the numbers they were printed for |
| `DnsBlocks.OutputCovers` | src/packages/src/src/fli4l/base/netcalc.c:478-575 | an address is denoted by a printed line, its labels read back by their character codes in front of in-addr.arpa or ip6.arpa and reversed, if and only if it shares the prefix and the prefix is not shorter than 8 bits (IPv4) or 4 bits (IPv6) |
| `DnsBlocks.CoversIff` | src/packages/src/src/fli4l/base/netcalc.c:559-572 | the printed names, so read back, denote exactly the addresses of the block if and only if the prefix is not shorter than one entry |
| `DnsBlocks.HalfOfIPv4` | src/packages/src/src/fli4l/base/netcalc.c:559-565 | the 128 lines for 128.0.0.0/1 begin with a label in front of a null string |
| `DnsBlocks.NamesDisjoint` | src/packages/src/src/fli4l/base/netcalc.c:478-575 | no address is denoted by two printed lines |
| `DnsBlocks.NamesDistinct` | src/packages/src/src/fli4l/base/netcalc.c:545-572 | the printed lines are pairwise different, and there are 2^(-n mod bitsPerEntry) of them for every n but 0 |
| `GpioLines.GetPortBit` | src/packages/src/src/fli4l/hwsupp/extra-gpio/gpio-w83627hf.c:348-377 | finds a line exactly for the numbers below the total, and then the (port, bit) with that rank, for any table whose counts fit its masks |
| `GpioLines.RankInRange` | src/packages/src/src/fli4l/hwsupp/extra-gpio/gpio-w83627hf.c:348-377 | every set mask bit has a line number, in its port's range |
| `GpioLines.RankIsInjective` | src/packages/src/src/fli4l/hwsupp/extra-gpio/gpio-w83627hf.c:348-377 | no two set mask bits share a line number |
| `GpioLines.MaskIs` | src/packages/src/src/fli4l/hwsupp/extra-gpio/gpio-w83627hf.c:362-362 | the mask of a bit is 1 shifted by it |
| `W83627.TablesCount` | src/packages/src/src/fli4l/hwsupp/extra-gpio/gpio-w83627hf.c:199-278 | both port tables, holes included, count their mask bits and have 22 and 36 lines |
| `W83627.LinesAtHole` | src/packages/src/src/fli4l/hwsupp/extra-gpio/gpio-w83627hf.c:247-256 | lines 15 to 20 are bits 0 to 5 of the port with mask 0xbf, line 21 is its bit 7 |
| `W83627.RegistersApart` | src/packages/src/src/fli4l/hwsupp/extra-gpio/gpio-w83627hf.c:199-278 | no two ports of a chip share a direction or data register |
| `W83627.SwitchesOn` | src/packages/src/src/fli4l/hwsupp/extra-gpio/gpio-w83627hf.c:106-196 | enabling a port switches on that port and no other, though ports share logical devices |
| `W83627.SwitchesOff` | src/packages/src/src/fli4l/hwsupp/extra-gpio/gpio-w83627hf.c:106-196 | disabling a port switches off that port and no other, except exactly for the third W83627HF port, which stays on |
| `W83627Pins.EnableSetsPins` | src/packages/src/src/fli4l/hwsupp/extra-gpio/gpio-w83627hf.c:106-196 | enabling a port gives its pin multiplexing bits the values they need, whichever logical device was selected before |
| `W83627Pins.OthersKeepPins` | src/packages/src/src/fli4l/hwsupp/extra-gpio/gpio-w83627hf.c:106-196 | enabling or disabling another port keeps them |
| `Nct5104d.Driver.ExecCmdSeq` | src/packages/src/src/fli4l/hwsupp/pcengines-apu/gpio-nct5104d.c:251-276 | runs the commands in order, or does nothing if the chip cannot be entered |
| `Nct5104d.Driver.Locate` | src/packages/src/src/fli4l/hwsupp/pcengines-apu/gpio-nct5104d.c:219-248 | finds exactly lines 0 to 15, port offset / 8, bit offset mod 8 |
| `Nct5104d.Driver.Request` | src/packages/src/src/fli4l/hwsupp/pcengines-apu/gpio-nct5104d.c:280-297 | new status and registers as Step says; succeeds for every existing line even if the chip is busy |
| `Nct5104d.Driver.Free` | src/packages/src/src/fli4l/hwsupp/pcengines-apu/gpio-nct5104d.c:300-316 | new status and registers as Step says |
| `Nct5104d.Driver.DirIn` | src/packages/src/src/fli4l/hwsupp/pcengines-apu/gpio-nct5104d.c:345-371 | new registers as Step says, with the error code for a missing line or a busy chip |
| `Nct5104d.Driver.DirOut` | src/packages/src/src/fli4l/hwsupp/pcengines-apu/gpio-nct5104d.c:374-410 | new registers as Step says, with the error code for a missing line or a busy chip |
| `Nct5104d.Driver.GetData` | src/packages/src/src/fli4l/hwsupp/pcengines-apu/gpio-nct5104d.c:413-436 | reads the line's data bit and changes no register |
| `Nct5104d.Driver.SetData` | src/packages/src/src/fli4l/hwsupp/pcengines-apu/gpio-nct5104d.c:439-465 | new registers as Step says |
| `Nct5104d.BankCommands` | src/packages/src/src/fli4l/hwsupp/pcengines-apu/gpio-nct5104d.c:99-122 | the enable and disable sequences of a bank change that bank's enable bit and nothing else |
| `Nct5104d.OthersUntouched` | src/packages/src/src/fli4l/hwsupp/pcengines-apu/gpio-nct5104d.c:280-465 | no call, successful or not, changes another line's direction or data bit |
| `Nct5104d.OwnLine` | src/packages/src/src/fli4l/hwsupp/pcengines-apu/gpio-nct5104d.c:280-465 | each call does to its own line what its name says and leaves the rest of that line alone |
| `Nct5104d.StatusFollows` | src/packages/src/src/fli4l/hwsupp/pcengines-apu/gpio-nct5104d.c:280-316 | every call keeps status equal to the set of held lines |
| `Nct5104d.EnableOfStep` | src/packages/src/src/fli4l/hwsupp/pcengines-apu/gpio-nct5104d.c:280-316 | exactly a request turns its bank on, exactly the free that empties a bank turns it off, and neither does on a busy chip |
| `Nct5104d.BankFollows` | src/packages/src/src/fli4l/hwsupp/pcengines-apu/gpio-nct5104d.c:280-316 | what a call does to a bank follows from the held lines and whether the chip is busy |
| `Nct5104d.RunsKeepTrack` | src/packages/src/src/fli4l/hwsupp/pcengines-apu/gpio-nct5104d.c:280-465 | in every run, busy calls included, status is the set of held lines and a bank is on if and only if the requests and emptying frees that entered the chip left it on |
| `Nct5104d.RunsEnable` | src/packages/src/src/fli4l/hwsupp/pcengines-apu/gpio-nct5104d.c:280-465 | in a run without busy calls every bank in use is enabled |
| `Nct5104d.LastFreeDisables` | src/packages/src/src/fli4l/hwsupp/pcengines-apu/gpio-nct5104d.c:300-316 | after the free that gives back a bank's last line the bank is on if and only if the chip was busy and it was on before |
| `Nct5104d.BusyRequest` | src/packages/src/src/fli4l/hwsupp/pcengines-apu/gpio-nct5104d.c:280-297 | a request on a busy chip is booked all the same, and the bank is enabled afterwards if and only if the chip was not busy or it was enabled before |
| `Nct5104d.BusyLeavesChip` | src/packages/src/src/fli4l/hwsupp/pcengines-apu/gpio-nct5104d.c:345-465 | a call on a busy chip changes no register, and no status unless it is a request or free |
| `MpLink.Plugin.MplinkScript` | src/packages/src/src/fli4l/base/pppdmpplugin/mp-plugin.c:69-90 | launches the script of the current script state and remembers what run_program returned |
| `MpLink.Plugin.MplinkScriptDone` | src/packages/src/src/fli4l/base/pppdmpplugin/mp-plugin.c:48-67 | acts as Step does on a completed script |
| `MpLink.Plugin.MplinkJoinHook` | src/packages/src/src/fli4l/base/pppdmpplugin/mp-plugin.c:92-103 | acts as Step does on a join |
| `MpLink.Plugin.MplinkExitHook` | src/packages/src/src/fli4l/base/pppdmpplugin/mp-plugin.c:105-115 | acts as Step does on an exit |
| `MpLink.RunKeepsInv` | src/packages/src/src/fli4l/base/pppdmpplugin/mp-plugin.c:48-115 | every interleaving keeps: launches alternate, the remembered pid is the only running script, no pid means script state equals link state, only the last launch can have failed |
| `MpLink.OneScript` | src/packages/src/src/fli4l/base/pppdmpplugin/mp-plugin.c:48-115 | in every run, with any running script free to end at any time, at most one script is running, and it is the one whose pid is remembered |
| `MpLink.ScriptsAlternate` | src/packages/src/src/fli4l/base/pppdmpplugin/mp-plugin.c:48-115 | in every run scripts alternate up, down, up, ... and the script state is that of the last one |
| `MpLink.IdleAgreement` | src/packages/src/src/fli4l/base/pppdmpplugin/mp-plugin.c:48-115 | with no script running, script and link state agree if and only if no launch has failed or the link events behind the first failed launch leave the link on the side it had then |
| `MpLink.LastLinkEvent` | src/packages/src/src/fli4l/base/pppdmpplugin/mp-plugin.c:92-115 | the link's side behind that launch is the one of the last link event, or unchanged without one |
| `MpLink.TwoCompletionsSettle` | src/packages/src/src/fli4l/base/pppdmpplugin/mp-plugin.c:48-67 | once link events stop at most two completions happen; after the first, script and link state agree, whether or not a launch fails, and after the second nothing is running |
| `MpLink.FailedForkWedges` | src/packages/src/src/fli4l/base/pppdmpplugin/mp-plugin.c:89-113 | after run_program returned a negative value no event ever launches a script again |
| `MpLink.WedgedIff` | src/packages/src/src/fli4l/base/pppdmpplugin/mp-plugin.c:89-113 | a reachable plugin never launches a script again if and only if its last fork failed |
| `MpLink.WedgedAtOdds` | src/packages/src/src/fli4l/base/pppdmpplugin/mp-plugin.c:89-113 | a join whose fork fails and an exit leave the plugin wedged and at odds with the link |
| `MpLink.OthersStayLive` | src/packages/src/src/fli4l/base/pppdmpplugin/mp-plugin.c:92-113 | from every other reachable state a further launch can be brought about, with any outcome, also the failure that wedges it |
| `UtcOffset.EarlierDates` | src/packages/src/src/fli4l/base/add-days.c:103-115 | 31-day pseudo-months order dates as the Gregorian calendar does |
| `UtcOffset.OffsetIsTrue` | src/packages/src/src/fli4l/base/add-days.c:96-123 | for one instant read in two zones less than a day apart the remainder trick gives the true signed offset, across every month, year and leap-day boundary, for all dates whose sums fit an int |
| `UtcOffset.FitsIff` | src/packages/src/src/fli4l/base/add-days.c:103-115 | every intermediate product and sum fits a 32-bit int if and only if the date is not before 1904 and not after 3:14:07 on 25 October 2036 |
| `UtcOffset.LastSecond` | src/packages/src/src/fli4l/base/add-days.c:103-115 | that second gives INT_MAX; the seconds on either side of both bounds |

## Left out

- Sockets, command parsing, `atoi`/`atol` widths, file opens, syslog and printing in every tool; the size announced to flicp is the size of the file.
- Lost connections, end of file and NAK bytes in the middle of a transfer; `write`, `send` and file reads are taken to be complete.
- The `/proc` branch of `send_file`, which counts the bytes of a file by reading lines.
- Download.StepKeepsInv: assumes the client's loop runs on the announced size; the status line that precedes the payload is not part of the stream.
- The time flicp waits in get_answer, and what it makes of the status line.
- Upload.UploadNeverBlocks: stated for states satisfying the invariant, which Upload.StepKeepsInv and the run lemmas extend to all reachable states.
- `md5_buffer`, which is the one-piece case of Md5.DigestOfPieces; base/imond/md5.c, which is the same code.
- Md5.Context.ProcessBytes: requires a call below 4 GiB, as every call is where size_t has 32 bits; elsewhere the counter can go wrong as Md5.CountIff says.
- Md5.Context.StoreRest: requires the same of its rest.
- Md5.DigestOfPieces: requires the same of each piece.
- Boundaries in `from64` and `fromqp`, which mmencode passes as NULL.
- PeFile.PieceSumIsImageSum: requires aligned headers behind the MZ header; PeFile.PieceSumIsSum has no such condition.
- PeFile.ChecksumOfImage: requires the same; PeFile.ChecksumOfEven and PeFile.ChecksumIff cover the other layouts.
- PeFile.ChecksumIff: for odd offsets or sizes, where words straddle the regions, the condition compares the word sums themselves.
- PeFile.UpdateIsStable: requires that flushing leaves the MZ header alone; PeStamp.SecondUpdate covers the rest.
- PeStamp.SetStampAndCheck: for a stamp that overwrites the PE offset field it says only whether the image is accepted again and that the checksum is that of the headers then found.
- PeFile.Open: requires an image below 4 GiB.
- PE images of 4 GiB and more; allocation, seek and write errors; the pechksum tool.
- The four CIDR conversions share one sliding-mask loop here (NetCalc.EditBits); the source repeats it.
- Prefix lengths beyond INT_MAX, which the conversions cast to int.
- NetCalc.Address.ToHost: requires a prefix length within the address, which address parsing has checked.
- What a C library prints for a null string; the model keeps such lines apart from names.
- Parsing and printing of addresses (`inet_pton`, `inet_ntop`).
- `add_socfpga_header` and the rest of mkpimage.
- The run properties for the W83627 driver: its calls are those of the NCT5104D driver, but the third port is never disabled.
- UtcOffset.OffsetIsTrue: requires dates whose sums fit an int, as UtcOffset.FitsIff says; leap seconds.
- `BUG()` for a line that does not exist in the GPIO drivers, which stops the kernel; here the call returns its error code.
- The other hooks chained in the multilink plugin, and the arguments of its scripts.
- mkfli4l, decode_chunked, ifenslave, LED, keyboard, watchdog, telmond, LCD, JavaScript and Python files: easy members only, environment, or no stated contract to prove.
