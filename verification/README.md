# Algorithms bundled with MicroChat, verified

A Dafny model of the algorithmic code that this WeChat-style client carries in its
bundled files, with proofs that it meets the standards and promises it is written for:

- **The DEFLATE decoder of `XUnzip.cpp`** (zlib's inflate): the builder of the
  multi-level Huffman tables, the decoder that stops and resumes whenever input or
  output space runs out, its unchecked fast path, the circular window, the bit buffer,
  and the whole `inflate` call, measured against RFC 1951; Adler-32 (section 2.2 of
  RFC 1950) and CRC-32 (section 8 of RFC 1952); the search for the zip end record.
- **Algorithms of the SQLite shell, `shell.c`**: the unrolled in-place Keccak and the
  SHA-3 sponge (FIPS 202), CSV export and import, the dot-command tokenizer and the
  C-string printer, the literal encoder of `.dump`, and the byte stream `sha3_query`
  hashes.
- **The space allocators** of the horizontal and the vertical box layout.
- **The base-128 codec** of `fun.cpp`.

Objects the source updates in place are classes here (`Window`, `BitReader`,
`CodesState`, `BlocksState`, `Inflater`, `Sha3Context`, `ImportCtx`), buffers are
arrays, and loops are loops. Specification functions say what a piece of data means:
`Rfc1951.Decode` what a stream decodes to, `Huffman.DecodeSym` which symbol a bit string
starts with, `Fips202` Keccak-f and SHA-3 on single bits, `Deflate` how a stream is written,
`DumpLiteral.Evaluate` the value of an SQL expression, and so on.

## How the decoder is proved

`Rfc1951` gives, for each place in the format, the outcome of the whole rest of the
stream, and marks where inflate differs: `Refused` is what the format has and inflate
turns away, `Unnoticed` a fault that inflate reads over, with what it goes on with.
`Plain` is the format's own view of an outcome, `Goes` what inflate makes of it. Every
state of `inflate_codes` and `inflate_blocks` has a `Meaning()`: what is still to come, in
those terms. Each step, each early exit and each table look-up keeps the meaning, and
each step either uses up input bits or moves to a later state. So a run in any
instalments keeps the meaning it started with, `Goes(Decode(input))`, whatever the input
is, and that is the main theorem, `Inflate.RunInInstalments`. Two others restate it in
terms of RFC 1951 alone: `Inflate.RunWellFormed` for the well-formed streams, and
`Inflate.RunToTheEnd` for all streams. The ghost fields `bits` and `made` hold
the input bits and the bytes produced; `BitReader.Valid` and `Window.Valid` tie the
bit buffer and the circular buffer to them.

What decoding means is pinned by its inverse. `Deflate` writes streams by the arithmetic of
RFC 1951, without the tables a decoder has: stored blocks, tokens in the fixed codes of
section 3.2.6, and dynamic blocks with their headers, code length codes and runs.
`WrittenBlocks.WellFormed`: a stream is well-formed exactly when some blocks are written
there, and `WrittenBlocks.Inverse`: then it decodes to what was written.
`Inflate.RunWritten` says the same of `inflate` itself.

The tables are built step by step under `HuftInvariant.Inv`: the tables on the stack
lead to the current code, every entry behind it means what `HuftTables.CellOK` says,
and tables left behind are closed. `HuftTables.TablesDecode` is what this buys.
`HuftPool` bounds the number of table entries: at each level there is at most one table
of each width whose entries are not all paid for by codes of its own.

## How SHA-3 is proved

`Fips202` follows the algorithms of FIPS 202 over booleans, with its own walk for the
offsets and its own shift register for the round constants. `Lanes` has the same steps on
64-bit lanes, `LaneBits` what each lane operation does to a bit, and `KeccakBits.RoundIs`
puts them together. The in-place rounds of `Keccak` equal the rounds of `Lanes`, and
`Sha3.SpongeBits` carries this through padding and absorbing to whole digests.

## What the proofs found

- **inflate refuses streams the format has.** Section 3.2.7 of RFC 1951 allows 1 to 32
  distance codes, and a distance code without any symbol when a block is all literals.
  `inflate_blocks` turns away 31 and 32, and `inflate_trees_dynamic` turns away an empty
  distance code unless there are exactly 257 literal/length codes. With enough input and
  space a well-formed stream is decoded exactly when no dynamic block is of these two
  kinds (`Inflate.RunWellFormed`, `Refusals.RefusedExactly`); `RefusalExamples` has a
  stream of each kind.
- **A table level can be skipped.** `huft_build` opens tables until the code fits into
  the top one, and sizes each by the length of the next code. If a table opens for a
  code more than *l* bits longer than the bits before it, the table gets more than *l*
  index bits, although deeper tables are linked as if each took *l*; some of its
  entries are never written. `HuftVerdict.RightExactly`: the tables decode, whatever the
  pool held before, exactly when no level is skipped. `HuftVerdict.SkipAccepted` is a
  complete code set that `huft_build` takes with Z_OK, with tables that decode wrongly. It
  never happens for the code sets inflate passes on: two levels are enough, or the code
  set is complete and small (`ShallowNoSkip`, `FewNoSkip`, `ShortCode`).
- **The pool of 1440 entries always suffices for code sets that can be used**: at most
  926 entries for literals and lengths and 328 for distances. So no well-formed stream
  ever gives Z_MEM_ERROR. An incomplete code set can: its missing codes get entries, too,
  before it is rejected (`HuftVerdict.LongRefused`), and the error is then Z_MEM_ERROR
  instead of Z_DATA_ERROR, exactly when the entries needed, which `HuftNeed.Needed` counts
  from the code lengths alone, are more than there are left (`HuftBuild.Build`).
- **A distance beyond the first byte goes unnoticed**: the window starts as zeros, and
  inflate copies them. So it decodes to the end exactly those streams that would be
  well-formed, and not refused, behind 32768 zero bytes (`Faults.BehindZeros`,
  `Inflate.RunToTheEnd`); `FaultExamples.FarRun` is a malformed stream of four bytes for
  which inflate returns Z_STREAM_END and three zero bytes.
- **An unassigned bit in a code length code of one symbol** is read as that symbol, but
  never hides a fault: with one symbol all code lengths of the block are the same, such
  a set is not usable, and the stream is found to be bad in the same block, if it is not
  cut off before (`Faults.NeverEnds`; in `FaultExamples.UnassignedBit` the error comes 15
  bits late).
- **Z_STREAM_END before the flush.** When `inflate_fast` ends a block it leaves
  Z_STREAM_END in `r` before WASH flushes, so `inflate_codes` can return it with output
  pending. The caller goes on to flush, and no byte is lost.
- **`adler32`** on no data returns an unreduced starting value unchanged.
- **CSV**: a separator byte of 128 or more is a negative `char` in the import context,
  so `.import` never recognises it; a table of two or more columns does not come back.
  Byte 255 equals EOF, and the loop over extra fields never ends, for every file.
- **`\s`**: the comment on `resolve_backslashes` promises a space, the code yields `s`;
  all other strings are resolved as the comment says, and those with `\s` never are
  (`DotCommand.AsDocumented`).
- **`sha3_query`**: its comment says integers are little-endian; the code puts the most
  significant byte first.
- **`Dword2String`** writes too few bytes exactly when a digit above the lowest is zero,
  or the two lowest digits are 1 and 0.

## Model

| member | source | states |
|---|---|---|
| Huffman.PrefixFree | DuiLib/Utils/XUnzip.cpp:1914-2007 | no bit string starts with the codes of two symbols |
| Huffman.KraftCompare | DuiLib/Utils/XUnzip.cpp:1888-1894 | patterns used at the longest length exceed (fall short of) all patterns iff the Kraft sum exceeds (is below) 1 |
| Huffman.DecodeSymIs | DuiLib/Utils/XUnzip.cpp:1914-2007 | canonical decoding finds exactly the symbol whose code is there |
| Huffman.DecodeSymNone | DuiLib/Utils/XUnzip.cpp:1975-1976 | a pattern beyond the last code starts no code |
| HuftTables.Lookup | DuiLib/Utils/XUnzip.cpp:1247-1284 | one look-up in right tables: the symbol with its bit count, an invalid-code entry if there is none, or the next table for exactly the bits consumed, always inside the used pool |
| HuftTables.TablesDecode | DuiLib/Utils/XUnzip.cpp:1247-1284 | for every bit string the walk from the root gives the symbol and bit count of canonical decoding; unassigned patterns come to an invalid-code entry; no index leaves the pool |
| HuftCounts.CountLengths | DuiLib/Utils/XUnzip.cpp:1853-1862 | c holds how many symbols have each length |
| HuftCounts.LengthBounds | DuiLib/Utils/XUnzip.cpp:1873-1882 | j and g are the shortest and the longest length in use |
| HuftCounts.Leftover | DuiLib/Utils/XUnzip.cpp:1888-1894 | y is negative iff the code set is over-subscribed, else the number of unused patterns |
| HuftCounts.SortValues | DuiLib/Utils/XUnzip.cpp:1905-1911 | v holds the symbols ordered by code length and then by number |
| HuftSteps.OpenTable | DuiLib/Utils/XUnzip.cpp:1930-1971 | opening a table, linked from the one above, keeps the invariant of the table stack |
| HuftFill.FillKeeps | DuiLib/Utils/XUnzip.cpp:1988-1991 | writing the entries of a code makes all entries up to its end right |
| HuftFill.LengthKeeps | DuiLib/Utils/XUnzip.cpp:1924-1928 | going to the next length leaves the reversed code and all tables as they should be |
| HuftBuild.TableSize | DuiLib/Utils/XUnzip.cpp:1936-1951 | the new table reaches the code and no further than the longest code; codes up to its depth cover it, or it has at least l index bits; no more than l unless a level is skipped |
| HuftBuild.FillEntries | DuiLib/Utils/XUnzip.cpp:1988-1991 | exactly the entries that agree with the code are written |
| HuftBuild.NextCode | DuiLib/Utils/XUnzip.cpp:1993-1996 | the backwards increment of a reversed code is the reversed next code |
| HuftBuild.CloseTables | DuiLib/Utils/XUnzip.cpp:1998-2005 | backing up leaves exactly the tables whose prefix the next code shares, and all closed ones are complete |
| HuftBuild.OpenTables | DuiLib/Utils/XUnzip.cpp:1930-1971 | tables are opened until the code fits in the top one; fails only when the entries needed are more than the pool has |
| HuftNeed.ChosenOnce | DuiLib/Utils/XUnzip.cpp:1936-1951 | the code lengths alone fix how wide the table for a prefix is |
| HuftNeed.TotalNeeded | DuiLib/Utils/XUnzip.cpp:1930-1971 | tables laid out as huft_build does take at most the entries counted from the code lengths, and exactly those once every prefix at which a longer code begins has its table |
| HuftNeed.FinalNeed | DuiLib/Utils/XUnzip.cpp:1924-2007 | the finished tables take exactly the entries needed |
| HuftBuild.Build | DuiLib/Utils/XUnzip.cpp:1816-2012 | Z_DATA_ERROR iff the Kraft sum exceeds 1; Z_MEM_ERROR iff it does not and the entries needed are more than are left in the pool; else Z_OK iff the code set is usable and Z_BUF_ERROR if not; the root has exactly 2^(*m) entries, the tables take exactly the entries needed, and they are right if no level is skipped |
| HuftGaps.SkipDepth | DuiLib/Utils/XUnzip.cpp:1931-1951 | no table is open yet where a level is skipped, so a too wide one will be |
| HuftGaps.GapReached | DuiLib/Utils/XUnzip.cpp:1936-1967 | with a too wide table, some bits lead the decoder to an entry that still is what it was before the call |
| HuftVerdict.RightExactly | DuiLib/Utils/XUnzip.cpp:1914-2007 | the tables give what canonical decoding does, whatever the pool held, iff no level is skipped: with one skipped, tables built in a pool without valid entries decode some bits wrongly |
| HuftPool.SizedNew | DuiLib/Utils/XUnzip.cpp:1936-1951 | below a new table all patterns of its depth are codes, or the first code of that length is among them, or the last |
| HuftPool.LayoutOpen | DuiLib/Utils/XUnzip.cpp:1930-1971 | tables of one level open in the order of their prefixes |
| HuftPool.UseBelow | DuiLib/Utils/XUnzip.cpp:1953-1957 | tables of one level and width take one entry for each code of their depth, but for one table at either end |
| HuftPool.TotalBound | DuiLib/Utils/XUnzip.cpp:1953-1957 | what all tables of a complete code set take at most |
| HuftVerdict.LitRoom | DuiLib/Utils/XUnzip.cpp:745-750 | literal/length tables take at most 926 of the 1440 entries |
| HuftVerdict.DistRoom | DuiLib/Utils/XUnzip.cpp:745-750 | distance tables take at most 328 |
| HuftLevels.ShallowNoSkip | DuiLib/Utils/XUnzip.cpp:1931-1951 | no level is skipped when the longest code has at most twice the root's bits |
| HuftLevels.FewNoSkip | DuiLib/Utils/XUnzip.cpp:1931-1951 | no level is skipped in a complete code set of fewer than 2^(l+1) symbols |
| HuftLevels.SkipExample | DuiLib/Utils/XUnzip.cpp:1931-1951 | a complete code set, six root bits, in which a level is skipped |
| HuftVerdict.SkipAccepted | DuiLib/Utils/XUnzip.cpp:1816-2012 | built for it, huft_build returns Z_OK and tables that do not decode it |
| HuftVerdict.LongRefused | DuiLib/Utils/XUnzip.cpp:1953-1955 | for a single code of 15 bits huft_build returns Z_MEM_ERROR, although the code set is incomplete |
| InflateTrees.InflateTreesBits | DuiLib/Utils/XUnzip.cpp:2015-2039 | Z_OK with right tables iff the code length code is usable, else Z_DATA_ERROR |
| InflateTrees.InflateTreesDynamic | DuiLib/Utils/XUnzip.cpp:2042-2098 | Z_OK with both sets of right tables iff both code sets can be used and the distance code is not empty beside codes for lengths; Z_MEM_ERROR iff the first tables need more than the pool, or the first set is usable and the second tables need more than what is left; never for code sets that can be used |
| InflateTrees.InflateTreesFixed | DuiLib/Utils/XUnzip.cpp:2104-2116 | the fixed codes get right tables of nine and five bits |
| InflateWindow.Window.PendingBytes | DuiLib/Utils/XUnzip.cpp:1072-1135 | window bytes from read on are the next bytes of the output, in order |
| InflateWindow.Window.OutByte | DuiLib/Utils/XUnzip.cpp:903 | a byte put in the window is appended to the bytes produced, and the last 32768 stay in place |
| InflateWindow.Window.Wrap | DuiLib/Utils/XUnzip.cpp:900 | wrapping the write pointer changes no byte produced or pending |
| InflateWindow.Window.Flush | DuiLib/Utils/XUnzip.cpp:1072-1135 | delivers exactly the next bytes produced, as many as are pending and as fit; progress turns Z_BUF_ERROR into Z_OK |
| InflateWindow.Window.NeedOut | DuiLib/Utils/XUnzip.cpp:902 | there is room afterwards, or the caller's buffer is full and output is pending |
| InflateBits.OrBits | DuiLib/Utils/XUnzip.cpp:894-895 | or-ing in input bits appends them, and is harmless where they still are from before being handed back |
| InflateBits.BitReader.NextByte | DuiLib/Utils/XUnzip.cpp:894-895 | the buffer keeps holding the upcoming bits, of which none is lost to the 32-bit width |
| InflateBits.BitReader.NeedBits | DuiLib/Utils/XUnzip.cpp:893-895 | enough bits afterwards, or no input left; the position never moves |
| InflateBits.BitReader.GrabBits | DuiLib/Utils/XUnzip.cpp:2129 | with enough input, enough bits afterwards, and never a read past the input |
| InflateBits.BitReader.Peek | DuiLib/Utils/XUnzip.cpp:907-913 | the masked buffer is the next bits of the stream |
| InflateBits.BitReader.DumpBits | DuiLib/Utils/XUnzip.cpp:896 | the position moves by exactly the bits dropped |
| InflateBits.BitReader.Ungrab | DuiLib/Utils/XUnzip.cpp:2130 | bytes are handed back, no more than were taken, without moving the position; fewer than 8 bits remain, or no more than at the start |
| InflateCodes.LitLookup | DuiLib/Utils/XUnzip.cpp:1247-1284 | what an entry of the literal/length tables says about the rest of the stream, for every value of exop |
| InflateCodes.DistLookup | DuiLib/Utils/XUnzip.cpp:1294-1316 | the same for the distance tables |
| InflateCodes.LenGoesOn | DuiLib/Utils/XUnzip.cpp:1247-1250 | inside a code that is waiting for input, the end of the stream, or its error, is yet to come |
| InflateCodes.CodesState.StepLen | DuiLib/Utils/XUnzip.cpp:1247-1284 | one table look-up keeps the meaning of the rest of the stream |
| InflateCodes.CodesState.StepCopy | DuiLib/Utils/XUnzip.cpp:1324-1337 | the copy, however often it stops for room, is the overlapping copy of LZ77, with zeros before the first byte |
| InflateCodes.CodesState.StepWash | DuiLib/Utils/XUnzip.cpp:1343-1357 | handing a byte back keeps the meaning; fewer than 8 bits are held, and END is reached only when all output is delivered |
| InflateCodes.CodesState.FastCopy | DuiLib/Utils/XUnzip.cpp:2203-2226 | the copy of the fast path, in at most two runs, is the same overlapping copy for every distance up to 32768, and stays inside the window |
| InflateCodes.CodesState.FastOne | DuiLib/Utils/XUnzip.cpp:2166-2273 | one turn of the fast loop decodes what the slow path would, within ten bytes of input and 258 bytes of room, whatever comes later in the stream |
| InflateCodes.CodesState.InflateFast | DuiLib/Utils/XUnzip.cpp:2137-2279 | entered with room for 258 bytes and ten bytes of input it refines the slow path on every stream: same bytes, same position, same outcome, no read past the input and no write past the room |
| InflateCodes.CodesState.Step | DuiLib/Utils/XUnzip.cpp:1228-1364 | every state keeps the meaning; going on uses up input or moves to a later state; leaving is for want of input, for want of space, at the end or for a bad code |
| InflateCodes.CodesState.InflateCodes | DuiLib/Utils/XUnzip.cpp:1210-1365 | the whole loop ends and keeps the meaning, and stops only for one of these reasons |
| InflateBlocks.BlocksState.StepType | DuiLib/Utils/XUnzip.cpp:1493-1538 | the block header: each of the four types |
| InflateBlocks.BlocksState.StepLens | DuiLib/Utils/XUnzip.cpp:1539-1552 | LEN is accepted iff NLEN is its complement |
| InflateBlocks.BlocksState.StepStored | DuiLib/Utils/XUnzip.cpp:1553-1569 | stored bytes are copied as far as input and space go |
| InflateBlocks.BlocksState.StepTable | DuiLib/Utils/XUnzip.cpp:1570-1591 | the sizes of a dynamic block; more than 286 literal/length codes are an error, more than 30 distance codes refused |
| InflateBlocks.BlocksState.StepBtree | DuiLib/Utils/XUnzip.cpp:1592-1598 | the lengths of the code length code, put in their permuted places |
| InflateBlocks.BlocksState.FinishBtree | DuiLib/Utils/XUnzip.cpp:1599-1614 | its tree is built, or the stream is bad |
| InflateBlocks.BlocksState.StepDtree | DuiLib/Utils/XUnzip.cpp:1615-1656 | one code length or run of lengths; an unassigned bit of a one-symbol code is read as that symbol |
| InflateBlocks.BlocksState.FinishDtree | DuiLib/Utils/XUnzip.cpp:1658-1686 | the two trees are built, or the stream is bad or refused; Z_MEM_ERROR only if it is bad |
| InflateBlocks.BlocksState.Step | DuiLib/Utils/XUnzip.cpp:1491-1717 | every state keeps the meaning, with progress as above |
| InflateBlocks.BlocksState.InflateBlocks | DuiLib/Utils/XUnzip.cpp:1477-1718 | the whole loop ends and keeps the meaning |
| Inflate.Inflater.Inflate | DuiLib/Utils/XUnzip.cpp:2595-2715 | what each return code says about the whole stream, for every stream; at Z_STREAM_END exactly ceil(bits/8) bytes are consumed |
| Inflate.Inflater.Prefix | DuiLib/Utils/XUnzip.cpp:1072-1135 | in every reachable state, on every stream, what was delivered is a prefix of what inflate decodes, up to the error if there is one |
| Inflate.RunInInstalments | DuiLib/Utils/XUnzip.cpp:2595-2715 | on every input any instalments of input and output space deliver the bytes inflate makes of the stream, so the same as one call; errors are returned only for streams with a fault that is noticed and for refused ones; with ample grants the end is reached, or the error reported |
| Inflate.RunToTheEnd | DuiLib/Utils/XUnzip.cpp:2595-2715 | with ample grants Z_STREAM_END is returned iff the stream is decoded without fault or refusal with 32768 zero bytes before it, and the output is what follows these; so a malformed stream goes unnoticed only for what it copies from before its first byte |
| Faults.BehindZeros | DuiLib/Utils/XUnzip.cpp:2441-2445 | inflate comes to the end of a stream iff RFC 1951 does so, without refusal, behind 32768 zero bytes, and gives what follows them |
| Faults.NeverEnds | DuiLib/Utils/XUnzip.cpp:1615-1656 | a block whose code length code has one symbol never comes to its end: it is bad or cut off, even where a bit is unassigned |
| FaultExamples.FarDistance | DuiLib/Utils/XUnzip.cpp:1324-1337 | a stream with a distance beyond the first byte, decoded to three zero bytes |
| FaultExamples.FarRun | DuiLib/Utils/XUnzip.cpp:2595-2715 | inflate returns Z_STREAM_END for it |
| FaultExamples.UnassignedBit | DuiLib/Utils/XUnzip.cpp:1615-1656 | a stream with an unassigned bit in the code length code, reported later |
| Inflate.RunWellFormed | DuiLib/Utils/XUnzip.cpp:3646-3650 | a well-formed stream with one byte after it and ample grants is decoded to the bytes of RFC 1951, all its bytes and no more consumed, iff every dynamic block has at most 30 distance codes and either 257 literal/length codes or a distance code of non-zero length |
| Inflate.RunWritten | DuiLib/Utils/XUnzip.cpp:3646-3650 | for every list of blocks, written down with a byte after it and granted enough, inflate returns Z_STREAM_END, the bytes written and the bytes consumed iff it takes every block; else Z_DATA_ERROR |
| WrittenBlocks.WellFormed | DuiLib/Utils/XUnzip.cpp:1493-1702 | a stream is well-formed iff stored, fixed and dynamic blocks are written there as RFC 1951 says, by arithmetic and without tables |
| WrittenBlocks.Inverse | DuiLib/Utils/XUnzip.cpp:1493-1702 | a written stream decodes to what was written, and is refused iff some block is not taken |
| WrittenBlocks.HeadWritten | DuiLib/Utils/XUnzip.cpp:1570-1702 | a header written with its counts, permuted code length lengths and runs gives its two codes |
| WrittenBlocks.OrderIs | DuiLib/Utils/XUnzip.cpp:1384-1385 | the order of the code length lengths goes outwards from 8, after the run symbols and 0 |
| Written.LengthCoded | DuiLib/Utils/XUnzip.cpp:1762-1768 | the table entry of the symbol that arithmetic gives for a length, and its extra value, make up the length |
| Written.LengthDecoded | DuiLib/Utils/XUnzip.cpp:1762-1768 | every symbol and extra value stand for one length from 3 to 258, the one arithmetic gives it for, but for the last one with extra bits |
| Written.DistanceCoded | DuiLib/Utils/XUnzip.cpp:1769-1777 | the table entry of the symbol that arithmetic gives for a distance, and its extra value, make up the distance |
| Written.DistanceDecoded | DuiLib/Utils/XUnzip.cpp:1769-1777 | every symbol and extra value stand for one distance from 1 to 32768, the one arithmetic gives it for |
| Written.FixedIs | DuiLib/Utils/XUnzip.cpp:2104-2116 | the fixed codes of section 3.2.6 are the canonical codes for their lengths |
| Written.CopyIs | DuiLib/Utils/XUnzip.cpp:1324-1337 | a copy repeats the last bytes over and over |
| Written.TokensWritten | DuiLib/Utils/XUnzip.cpp:1228-1364 | written tokens and the end of the block decode to their expansion |
| Refusals.BlocksThen | DuiLib/Utils/XUnzip.cpp:1687-1702 | decoding a stream is decoding its first block by itself and then the rest |
| Refusals.BlockRefused | DuiLib/Utils/XUnzip.cpp:1570-1591 | a block is refused iff it is dynamic and fails the condition |
| Refusals.RefusedExactly | DuiLib/Utils/XUnzip.cpp:2076-2093 | a well-formed stream is refused iff some dynamic block fails the condition |
| RefusalExamples.ManyDistances | DuiLib/Utils/XUnzip.cpp:1573-1579 | a well-formed stream with 31 distance codes, refused after the block sizes |
| RefusalExamples.NoDistances | DuiLib/Utils/XUnzip.cpp:2078-2093 | a well-formed stream with 258 literal/length codes and no distance code, refused after the code lengths |
| Checksums.BlockFits | DuiLib/Utils/XUnzip.cpp:2378-2380 | 5552 bytes never overflow 32 bits, from any 16-bit sums |
| Checksums.Adler32 | DuiLib/Utils/XUnzip.cpp:2378-2413 | equals the per-byte definition iff there is data or the start is reduced |
| Checksums.AdlerComposes | DuiLib/Utils/XUnzip.cpp:2389-2413 | the checksum of a concatenation is the checksum of the second part continued from the first |
| Checksums.BaseIsPrime | DuiLib/Utils/XUnzip.cpp:2378 | 65521 is the largest prime below 65536 |
| Checksums.TableStep | DuiLib/Utils/XUnzip.cpp:2357 | one table look-up is eight steps of the CRC polynomial division |
| Checksums.Polynomial | DuiLib/Utils/XUnzip.cpp:2298-2350 | the constant of a step is the polynomial of the CRC, reflected |
| Checksums.Crc32 | DuiLib/Utils/XUnzip.cpp:2362-2368 | equals the bit-by-bit CRC of RFC 1952 |
| Checksums.CrcComposes | DuiLib/Utils/XUnzip.cpp:2362-2368 | the CRC of a concatenation is continued from the first part |
| ZipSearch.SearchCentralDir | DuiLib/Utils/XUnzip.cpp:3077-3107 | the overlapping backwards scan finds the last non-zero position of the signature in the last 65535 bytes, or 0 if there is none, and no other place answers to that |
| Keccak.Round1 | sqlite3/shell.c:939-1004 | the first unrolled round is a round of FIPS 202, its lanes left in permuted places |
| Keccak.KeccakF1600Step | sqlite3/shell.c:892-1207 | for every state the unrolled in-place function is Keccak-f[1600] of FIPS 202, bit for bit |
| Lanes.OffsetsRight | sqlite3/shell.c:936-1205 | the rotations are those the walk of section 3.2.2 of FIPS 202 defines |
| Lanes.ConstantsRight | sqlite3/shell.c:897-910 | the round constants are those the shift register of section 3.2.5 of FIPS 202 generates |
| LaneBits.MixBit | sqlite3/shell.c:955-959 | bit z of a lane after chi is a != (!b && c) |
| LaneBits.AllTurns | sqlite3/shell.c:936-1205 | the rotation of each lane moves every bit as far as the walk says |
| KeccakBits.ConstantIs | sqlite3/shell.c:897-910 | every bit of every round constant is the one the boolean shift register gives |
| KeccakBits.RoundIs | sqlite3/shell.c:912-1205 | a round on lanes is theta, rho, pi, chi and iota on bits |
| KeccakBits.RoundsAre | sqlite3/shell.c:892-1207 | 24 rounds on lanes are Keccak-f on bits |
| Sha3.PaddingBits | sqlite3/shell.c:1282-1293 | bit by bit the padding is 01 and then pad10*1 with the fewest zeros |
| Sha3.Sha3Context.Update | sqlite3/shell.c:1243-1275 | by words or by bytes, data is absorbed as if appended to the message |
| Sha3.Sha3Context.Final | sqlite3/shell.c:1282-1298 | returns the sponge of the message absorbed |
| Sha3.Hash | sqlite3/shell.c:1214-1298 | any cutting of a message into updates, aligned or not, gives the sponge of the whole; for 224, 256, 384 and 512 bits that is the SHA-3 function of FIPS 202 over the bits |
| Sha3.SpongeBits | sqlite3/shell.c:1214-1298 | the sponge over bytes is SHA3-d of FIPS 202 over their bits |
| Sha3Query.HashQuery | sqlite3/shell.c:1390-1498 | the hash is the SHA-3 of the encoded results |
| Sha3Query.DecodeEncode | sqlite3/shell.c:1365-1388 | the stream decodes to the segments it was made of |
| Sha3Query.UniquelyDecodable | sqlite3/shell.c:1365-1388 | different sequences of segments give different bytes |
| Sha3Query.Letters | sqlite3/shell.c:1365-1388 | the letters of the encoding |
| Sha3Query.BigEndianBits | sqlite3/shell.c:1450-1462 | bit by bit, numbers come most significant byte first |
| DumpLiteral.UnusedString | sqlite3/shell.c:2326-2338 | terminates with a token that does not occur in the text |
| DumpLiteral.TokensSeparate | sqlite3/shell.c:2326-2338 | the tokens overlap neither themselves nor each other |
| DumpLiteral.Restore | sqlite3/shell.c:2384-2440 | replace() of the token brings back every hidden character and changes nothing else |
| DumpLiteral.OutputQuotedEscapedString | sqlite3/shell.c:2384-2440 | for every string the printed SQL expression evaluates to that string, and has no line feed and no carriage return |
| Csv.OutputCsv | sqlite3/shell.c:2537-2566 | quotes exactly the fields that need it, and doubles quotes in them |
| Csv.ImportCtx.ReadOneField | sqlite3/shell.c:4576-4652 | what is read, where it ends and which character ended it, for every input |
| Csv.FieldBack | sqlite3/shell.c:4576-4652 | every field written is read back, whatever follows, also at the start or the end of a file |
| Csv.CellBack | sqlite3/shell.c:4576-4652 | every cell, plain or quoted, is read back before a separator, a line feed, a carriage return and line feed, or the end of the file |
| Csv.ImportRow | sqlite3/shell.c:6006-6040 | a line gives its cells; short lines are filled with NULLs, extra cells dropped |
| Csv.Import | sqlite3/shell.c:6006-6047 | a file of plain and quoted cells, its lines ended by a line feed alone or after a carriage return, the last perhaps by the end of the file, with or without a byte order mark, gives its rows; with a separator that is never recognised the second column is NULL in every row; never returns iff the separator is byte 255 |
| Csv.RoundTrip | sqlite3/shell.c:2873-2889 | export then import is the identity iff the separator is below 128, or it is not 255 and there is one column or no row |
| DotCommand.ResolveBackslashes | sqlite3/shell.c:4335-4377 | rewrites the string in place to its resolved form, and touches nothing else |
| DotCommand.AsDocumented | sqlite3/shell.c:4319-4377 | a string is resolved as the comment promises iff it has no s in an escape position |
| DotCommand.Tokenize | sqlite3/shell.c:5437-5457 | the arguments of the line lie in it as NUL-terminated strings, at most 50 |
| DotCommand.OutputCString | sqlite3/shell.c:2445-2471 | the text printed, for any notion of printable |
| DotCommand.BodyBack | sqlite3/shell.c:2445-2471 | resolving the escapes of a printed string gives it back |
| DotCommand.BodyEnd | sqlite3/shell.c:5440-5449 | the closing quote is found where the printer put it |
| DotCommand.LineArguments | sqlite3/shell.c:5437-5457 | a line of a name and arguments, each after white space, as words, in single quotes or printed as C strings, is split into their values, the first 50 in all |
| DotCommand.SplitLine | sqlite3/shell.c:5437-5457 | and in place they lie in the line as NUL-terminated strings |
| DotCommand.PrintAndSplit | sqlite3/shell.c:5437-5457 | the printer, the tokenizer and the resolver together are the identity |
| BoxLayout.Measure | DuiLib/Layout/UIHorizontalLayout.cpp:61-98 | the fixed extent and the number of stretchable children |
| BoxLayout.SetPos | DuiLib/Layout/UIHorizontalLayout.cpp:42-190 | where each child lies and how wide it is: its estimate, the equal share, or what is left for the last one; at most the maximum, at least the minimum if that is not more, and exactly that size where it lies within the limits; sizes, paddings and gaps sum to the available extent iff the last stretchable child is not clamped |
| BoxLayout.EqualShares | DuiLib/Layout/UIVerticalLayout.cpp:61-183 | with no stretchable child clamped, all is used up and the last exceeds the others by less than their number |
| Base128.String2Dword | MicroChat/fun.cpp:130-161 | the value of the bytes up to the first without the high bit, at most five, modulo 2^32, and how many there are |
| Base128.EveryDword | MicroChat/fun.cpp:130-161 | the standard encoding of every 32-bit value is read back, whatever follows it |
| Base128.Dword2String | MicroChat/fun.cpp:98-128 | the standard encoding for good values, fewer bytes for all others |
| Base128.WrittenForm | MicroChat/fun.cpp:98-128 | the standard encoding iff the value is good, and fewer bytes otherwise |
| Base128.RoundTrip | MicroChat/fun.cpp:98-161 | writing and reading gives the value back iff it is good |

## Left out

- The input of inflate is one contiguous sequence: changing buffers between calls would break handing a byte back. The local copies b, k, p, n, q and m of the fields are the fields themselves, and a code's tables are values taken when the block starts.
- The fixed tables are built by huft_build instead of being literals, the CRC table is generated, and blens is a sequence. Allocation succeeds. Only raw mode, which inflateInit2 always selects: no zlib header, dictionary or check value. Resetting a finished stream is not modelled.
- Distance codes 30 and 31 of the fixed code are unassigned in `Rfc1951`; the decoder rejects them as the RFC requires of any decoder.
- Inflate.Inflater.Inflate: after Z_MEM_ERROR, which only malformed streams give, the code lengths are gone and inflate must not be called again; the model demands that of the caller.
- `Rfc1951`: distance codes 30 and 31 may have lengths in a dynamic block; like the literal/length codes 286 and 287 they take part in the code and are an error when they occur.
- Inflate.RunInInstalments: how much of the output was delivered before a data error is stated only as a prefix of what comes before the error, because it depends on the space granted.
- `inflateSync`, `inflateSetDictionary`, the zip directory and file handling, times and attributes.
- Sha3.Sha3Context.Update: the little-endian build only; the union of lanes and bytes is kept as lanes. Whether the data is aligned is a parameter.
- Keccak.KeccakF1600Step: `ROL64` is never used with a shift of 0, so its undefined case does not arise.
- Csv.Export: one-character separators, line feed as the row separator of import (the default CRLF is replaced by it), no header and no NULL fields. `char` is signed, as in the Windows build. Table creation and column counting are not modelled: the number of columns is a parameter.
- Csv.RoundTrip: texts and files are byte strings that may hold byte 0; in the source a field is a C string, which ends there, so the statement concerns the fields without it. An interrupt by the user is not modelled.
- DumpLiteral.OutputQuotedEscapedString: is stated for texts with a NUL character as well; those of the source have none.
- DotCommand.LineArguments: quotes that are never closed are in Tokenize only, through `Arguments`.
- Csv.Import: quoted cells with characters between the closing quote and the separator, or never closed, are in ReadOneField only, through `ReadField`.
- DotCommand.OutputCString: which bytes are printable is a parameter, because it depends on the locale.
- Sha3Query.HashQuery: the statements are given by what they return; sqlite3_* calls and the refusal of statements that write are not part of this model.
- `output_quoted_string` and `output_html_string`: simpler than the printers modelled. `testcase_glob`: it treats `*` before `#` or white space literally, so no clean language describes it.
- BoxLayout.SetPos: extents are unbounded integers, so 32-bit overflow is not modelled. Each child's estimate must be the same in both passes. Floating children, scroll bars and painting are left out; the horizontal and the vertical layout are one method with the axis as parameter, as their only difference is which limits apply.
- `Hex2bin` and `Bin2Hex` are easy and left out, as are the character set conversions of `fun.cpp`.
