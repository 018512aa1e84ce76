/** Finding the end-of-central-directory record of a zip file: a scan backwards in
    overlapping blocks. */
module ZipSearch {
  import opened Basics

  const BUFREADCOMMENT: nat := 0x400
  const MAX_COMMENT: nat := 0xffff

  function LittleEndian(a: int, b: int, c: int, d: int): int { a + 0x100 * b + 0x1_0000 * c + 0x100_0000 * d }

  /** The record's signature 0x06054b50, least significant byte first, starts at p. */
  predicate SignatureAt(file: seq<byte>, p: nat)
  {
    && p + 4 <= |file|
    && LittleEndian(file[p], file[p + 1], file[p + 2], file[p + 3]) == 0x0605_4b50
  }

  /** The place is found: the last one that is not 0 in the last 65535 bytes of the
      file, or 0 for none. */
  ghost predicate LastSignature(file: seq<byte>, pos: nat)
  {
    var low := if |file| > MAX_COMMENT then |file| - MAX_COMMENT else 0;
    && (forall p: nat | p > pos && p >= low :: !SignatureAt(file, p))
    && (pos != 0 ==> pos >= low && SignatureAt(file, pos))
  }

  lemma LastSignatureUnique(file: seq<byte>, p: nat, q: nat)
    requires LastSignature(file, p) && LastSignature(file, q)
    ensures p == q
  {
  }

  /** lufread. */
  method ReadBlock(file: seq<byte>, pos: nat, size: nat, buf: array<byte>)
    requires pos + size <= |file| && size <= buf.Length
    modifies buf
    ensures forall k | 0 <= k < size :: buf[k] == file[pos + k]
  {
    var i: nat := 0;
    while i < size
      invariant i <= size && forall k | 0 <= k < i :: buf[k] == file[pos + k]
    {
      buf[i] := file[pos + i];
      i := i + 1;
    }
  }

  /** for (i = size - 3; (i--) > 0;): the last signature in the block that is not at the
      start of the file, or 0. */
  method ScanBlock(file: seq<byte>, pos: nat, size: nat, buf: array<byte>) returns (found: nat)
    requires pos + size <= |file| && 4 <= size <= buf.Length
    requires forall k | 0 <= k < size :: buf[k] == file[pos + k]
    ensures found != 0 ==> pos <= found <= pos + size - 4 && SignatureAt(file, found)
    ensures forall p: nat | p > found && pos <= p <= pos + size - 4 :: !SignatureAt(file, p)
  {
    found := 0;
    var i: int := size - 3;
    while i > 0
      invariant 0 <= i <= size - 3
      invariant forall p: nat | pos + i <= p <= pos + size - 4 :: !SignatureAt(file, p)
    {
      i := i - 1;
      assert buf[i] == file[pos + i] && buf[i + 1] == file[pos + i + 1];
      assert buf[i + 2] == file[pos + i + 2] && buf[i + 3] == file[pos + i + 3];
      if buf[i] == 0x50 && buf[i + 1] == 0x4b && buf[i + 2] == 0x05 && buf[i + 3] == 0x06 {
        found := pos + i;
        break;
      }
    }
  }

  /** unzlocal_SearchCentralDir: the one such place. */
  method SearchCentralDir(file: seq<byte>) returns (uPosFound: nat)
    ensures forall p: nat :: LastSignature(file, p) <==> p == uPosFound
  {
    var uSizeFile := |file|;
    var uMaxBack := MAX_COMMENT;
    if uMaxBack > uSizeFile { uMaxBack := uSizeFile; }
    var buf := new byte[BUFREADCOMMENT + 4];
    uPosFound := 0;
    var uBackRead: nat := 4;
    while uBackRead < uMaxBack
      invariant 4 <= uBackRead && (uBackRead <= uMaxBack || uBackRead == 4)
      invariant uPosFound == 0
      invariant uBackRead > 4 ==> forall p: nat | p >= uSizeFile - uBackRead && p > 0 :: !SignatureAt(file, p)
      decreases uMaxBack - uBackRead
    {
      if uBackRead + BUFREADCOMMENT > uMaxBack { uBackRead := uMaxBack; }
      else { uBackRead := uBackRead + BUFREADCOMMENT; }
      var uReadPos := uSizeFile - uBackRead;
      var uReadSize := if BUFREADCOMMENT + 4 < uSizeFile - uReadPos then BUFREADCOMMENT + 4 else uSizeFile - uReadPos;
      ReadBlock(file, uReadPos, uReadSize, buf);
      uPosFound := ScanBlock(file, uReadPos, uReadSize, buf);
      if uPosFound != 0 { break; }
    }
    forall p: nat | LastSignature(file, p) ensures p == uPosFound {
      LastSignatureUnique(file, p, uPosFound);
    }
  }
}
