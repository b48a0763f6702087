/** The parts of the binary FBX layout that both importers of
    pkg/importers read: the file header (magic text and version) and the
    header of a node record. Only these fields are interpreted; the rest of
    a real FBX node header (property count, property list length) is
    skipped unread. */
module Fbx {
  import opened Common
  import opened Text

  /** "Kaydara FBX Binary  " (with two trailing spaces) in ASCII. */
  const Magic: seq<byte> :=
    [0x4B, 0x61, 0x79, 0x64, 0x61, 0x72, 0x61, 0x20, 0x46, 0x42,
     0x58, 0x20, 0x42, 0x69, 0x6E, 0x61, 0x72, 0x79, 0x20, 0x20]

  /** The oldest version either importer accepts. */
  const MinVersion: nat := 7100

  /** Inputs stay below 4 GiB by a margin, so that no uint32 offset the node
      walks compute wraps around before it is compared with the length. */
  const SizeLimit: nat := 0x1_0000_0000 - 0x200

  /** The header check shared by parseFBXBinary and parseFBXMaterials: the
      20-byte magic, then the little-endian uint32 version at bytes 23..27.
      For a file of 20 to 26 bytes Go slices the version past the length,
      which succeeds or panics depending on the capacity of the buffer the
      file was read into; the model only has the bytes, and takes it to be
      a panic. */
  function CheckHeader(data: seq<byte>): (r: Result<u32>)
    ensures r.Ok? <==> |data| >= 27 && data[..20] == Magic && LeU32(data, 23) >= MinVersion
    ensures r.Ok? ==> r.value == LeU32(data, 23)
    ensures |data| < 20 || data[..20] != Magic ==> r == Err(InvalidFbx)
    ensures |data| >= 27 && data[..20] == Magic && LeU32(data, 23) < MinVersion ==>
      r == Err(UnsupportedFbxVersion(LeU32(data, 23)))
  {
    if |data| < 20 || data[..20] != Magic then Err(InvalidFbx)
    else if |data| < 27 then Err(Panic)
    else if LeU32(data, 23) < MinVersion then Err(UnsupportedFbxVersion(LeU32(data, 23)))
    else Ok(LeU32(data, 23))
  }

  /** The 27-byte header of a binary FBX file of the given version: the
      magic, the bytes 0x1A 0x00 0x00 that follow it, and the version. */
  function Header(version: u32): (h: seq<byte>)
    ensures |h| == 27
  {
    Pow256Widths();
    Magic + [0x1A, 0x00, 0x00] + LeBytes(version, 4)
  }

  /** A header written by Header is accepted exactly when its version is
      recent enough, and its version is read back. */
  lemma CheckHeaderOfHeader(version: u32, rest: seq<byte>)
    ensures version >= MinVersion ==> CheckHeader(Header(version) + rest) == Ok(version)
    ensures version < MinVersion ==> CheckHeader(Header(version) + rest) == Err(UnsupportedFbxVersion(version))
  {
    Pow256Widths();
    var data := Header(version) + rest;
    assert data[..20] == Magic;
    assert data[23..27] == LeBytes(version, 4);
    LeValueOfBytes(version, 4);
  }

  /** What one pass of the node walks finds at an offset. */
  datatype NodeStep =
    | Stop                                        // the walk breaks out of its loop
    | Crash                                       // a read out of range: a Go panic
    | Node(name: string, body: nat, end: nat)     // the node's name, where its body starts, its end offset

  /** The node-record header read by extractGeometryData and
      parseFBXMaterials at `offset`: a little-endian uint32 end offset (0 or
      past the data stops the walk), nine skipped bytes, a one-byte name
      length and the name. The name-length byte is read without a bounds
      check. */
  function ReadNode(data: seq<byte>, offset: nat): (r: NodeStep)
    requires offset < |data| <= SizeLimit
    ensures r.Node? ==> 0 < r.end <= |data| && offset + 14 <= r.body <= |data|
    ensures r.Node? ==> r.end == LeU32(data, offset) && |r.name| == data[offset + 13] as nat
    ensures r.Crash? <==> offset + 4 <= |data| && 0 < LeU32(data, offset) <= |data| && |data| <= offset + 13
  {
    if offset + 4 > |data| then Stop
    else
      var end := LeU32(data, offset);
      if end == 0 || end > |data| then Stop
      else if offset + 13 >= |data| then Crash
      else
        var nameLen := data[offset + 13] as nat;
        var start := offset + 14;
        if start + nameLen > |data| then Stop
        else Node(Latin1(data[start..start + nameLen]), start + nameLen, end)
  }

  /** A node record as a writer lays it out at `offset`: its end offset,
      nine zero bytes, the name length, the name and the body. */
  function EncodeNode(offset: nat, name: seq<byte>, body: seq<byte>): (r: seq<byte>)
    requires |name| < 256 && offset + 14 + |name| + |body| < 0x1_0000_0000
    ensures |r| == 14 + |name| + |body|
  {
    Pow256Widths();
    LeBytes(offset + 14 + |name| + |body|, 4) + [0, 0, 0, 0, 0, 0, 0, 0, 0] + [|name| as byte] + name + body
  }

  /** ReadNode is the inverse of EncodeNode: a record written at `offset`
      is read back with its name, the start of its body and its end. */
  lemma ReadNodeOfEncoded(data: seq<byte>, offset: nat, name: seq<byte>, body: seq<byte>)
    requires |name| < 256
    requires offset + 14 + |name| + |body| <= |data| <= SizeLimit
    requires data[offset..offset + 14 + |name| + |body|] == EncodeNode(offset, name, body)
    ensures ReadNode(data, offset) ==
      Node(Latin1(name), offset + 14 + |name|, offset + 14 + |name| + |body|)
  {
    Pow256Widths();
    var end := offset + 14 + |name| + |body|;
    var node := EncodeNode(offset, name, body);
    assert data[offset..offset + 4] == node[..4] == LeBytes(end, 4);
    LeValueOfBytes(end, 4);
    assert data[offset + 13] == node[13] == |name| as byte;
    assert node[14..14 + |name|] == name;
    forall i | 0 <= i < |name|
      ensures data[offset + 14 + i] == name[i]
    {
      assert data[offset + 14 + i] == data[offset..end][14 + i] == node[14 + i];
    }
    assert data[offset + 14..offset + 14 + |name|] == name;
  }
}
