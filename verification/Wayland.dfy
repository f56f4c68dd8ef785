/**
 The vocabulary of the Wayland connection: native handles, the calls that
 `WaylandSingleWindowManager` makes on the connection, and the wire form of a
 graphics buffer (one `create_handle`, one `add_fd` per descriptor, one
 `create_buffer`, one `destroy`).
 */
module Wayland {
  import opened Wrappers

  /** A protocol object; 0 is the null proxy. */
  type ObjId = nat
  const NULL_OBJECT: ObjId := 0

  /** The address of a native handle: the key of the client's buffer map. */
  type HandlePtr = nat

  type Serial = nat

  const GRALLOC_USAGE_HW_RENDER := 0x200

  /** An Android native_handle_t: `numFds` descriptors followed by `numInts` integers. */
  datatype RawHandle = RawHandle(numFds: nat, numInts: nat, data: seq<int>) {
    predicate Valid() {
      |data| == numFds + numInts
    }
  }

  type NativeHandle = h: RawHandle | h.Valid() witness RawHandle(0, 0, [])

  /** One frame as `pushFrame` receives it. */
  datatype Frame = Frame(ptr: HandlePtr, native: NativeHandle, width: int, height: int, stride: int, format: int)

  /** What the compositor can know about a wl_buffer. */
  datatype Content = Content(native: NativeHandle, width: int, height: int, stride: int, format: int, usage: int)

  function ContentOf(f: Frame): Content {
    Content(f.native, f.width, f.height, f.stride, f.format, GRALLOC_USAGE_HW_RENDER)
  }

  datatype ToplevelSetting = Title | AppId | Fullscreen

  /**
   Everything that happens on the connection, in order: the client's calls, and
   the two events by which the compositor's own state moves.
   `DestroyCallback` frees the client's proxy and sends nothing.
   */
  datatype Entry =
    | CreateSurface(id: ObjId)
    | GetXdgSurface(id: ObjId)
    | GetToplevel(id: ObjId)
    | SetToplevel(setting: ToplevelSetting)
    | AckConfigure(serial: Serial)
    | CreateHandle(id: ObjId, numFds: nat, ints: seq<int>)
    | AddFd(handle: ObjId, fd: int)
    | CreateBuffer(id: ObjId, width: int, height: int, stride: int, format: int, usage: int, handle: ObjId)
    | DestroyHandle(handle: ObjId)
    | RequestFrame(id: ObjId)
    | Attach(buffer: ObjId)
    | Damage(width: int, height: int)
    | Commit
    | DestroyBuffer(buffer: ObjId)
    | DestroyCallback(callback: ObjId)
    | SentConfigure(serial: Serial)
    | SentDone(callback: ObjId)

  // ---------- the wire form of a buffer ----------

  /** A buffer together with the two object ids its wire form allocates. */
  datatype Item = Item(content: Content, handle: ObjId, buffer: ObjId)

  function Fds(h: NativeHandle): seq<int> {
    h.data[..h.numFds]
  }

  function Ints(h: NativeHandle): seq<int> {
    h.data[h.numFds..]
  }

  function AddFds(handle: ObjId, fds: seq<int>): seq<Entry> {
    seq(|fds|, i requires 0 <= i < |fds| => AddFd(handle, fds[i]))
  }

  function CreateBufferCall(c: Content, handle: ObjId, buffer: ObjId): Entry {
    CreateBuffer(buffer, c.width, c.height, c.stride, c.format, c.usage, handle)
  }

  function Encode(item: Item): seq<Entry> {
    var h := item.content.native;
    [CreateHandle(item.handle, h.numFds, Ints(h))]
    + AddFds(item.handle, Fds(h))
    + [CreateBufferCall(item.content, item.handle, item.buffer), DestroyHandle(item.handle)]
  }

  function EncodeAll(items: seq<Item>): seq<Entry> {
    if items == [] then [] else Encode(items[0]) + EncodeAll(items[1..])
  }

  /** Reads descriptors for `handle`, refusing anything that is not one. */
  function ReadFds(handle: ObjId, s: seq<Entry>): Option<seq<int>> {
    if s == [] then Some([])
    else match s[0]
      case AddFd(h, fd) =>
        if h != handle then None
        else (match ReadFds(handle, s[1..])
          case Some(fds) => Some([fd] + fds)
          case None => None)
      case _ => None
  }

  /** Reads one buffer off a stream that starts with `create_handle`. */
  function DecodeOne(s: seq<Entry>): Option<Item>
    requires s != [] && s[0].CreateHandle? && |s| >= s[0].numFds + 3
  {
    var CreateHandle(h, n, ints) := s[0];
    match ReadFds(h, s[1..n + 1])
    case None => None
    case Some(fds) =>
      if s[n + 1].CreateBuffer? && s[n + 1].handle == h && s[n + 2] == DestroyHandle(h) && |fds| == n then
        var CreateBuffer(b, w, ht, st, fmt, use, _) := s[n + 1];
        Some(Item(Content(RawHandle(n, |ints|, fds + ints), w, ht, st, fmt, use), h, b))
      else None
  }

  /** A parser for streams of encoded buffers. */
  function Decode(s: seq<Entry>): Option<seq<Item>>
    decreases |s|
  {
    if s == [] then Some([])
    else if s[0].CreateHandle? && |s| >= s[0].numFds + 3 then
      match DecodeOne(s)
      case None => None
      case Some(item) =>
        match Decode(s[s[0].numFds + 3..])
        case None => None
        case Some(items) => Some([item] + items)
    else None
  }

  lemma {:induction false} ReadFdsOfAddFds(handle: ObjId, fds: seq<int>)
    ensures ReadFds(handle, AddFds(handle, fds)) == Some(fds)
  {
    if fds != [] {
      ReadFdsOfAddFds(handle, fds[1..]);
      assert AddFds(handle, fds)[1..] == AddFds(handle, fds[1..]);
      assert [fds[0]] + fds[1..] == fds;
    }
  }

  lemma {:induction false} ReadFdsOnlyAddFds(handle: ObjId, s: seq<Entry>)
    requires ReadFds(handle, s).Some?
    ensures s == AddFds(handle, ReadFds(handle, s).value)
  {
    if s != [] {
      ReadFdsOnlyAddFds(handle, s[1..]);
      var fds := ReadFds(handle, s).value;
      assert s[0] == AddFd(handle, fds[0]);
      assert fds[1..] == ReadFds(handle, s[1..]).value;
      assert s == [s[0]] + s[1..];
      assert AddFds(handle, fds) == [AddFd(handle, fds[0])] + AddFds(handle, fds[1..]);
    }
  }

  lemma DecodeOneOfEncode(item: Item, rest: seq<Entry>)
    ensures var s := Encode(item) + rest;
      var n := item.content.native.numFds;
      && s[0].CreateHandle? && s[0].numFds == n && |s| >= n + 3
      && DecodeOne(s) == Some(item)
      && s[n + 3..] == rest
  {
    var s := Encode(item) + rest;
    var native := item.content.native;
    var n := native.numFds;
    ReadFdsOfAddFds(item.handle, Fds(native));
    assert s[1..n + 1] == AddFds(item.handle, Fds(native));
    assert Fds(native) + Ints(native) == native.data;
  }

  /** Decoding undoes encoding, for any number of buffers laid end to end. */
  lemma {:induction false} DecodeEncodeAll(items: seq<Item>)
    ensures Decode(EncodeAll(items)) == Some(items)
  {
    if items != [] {
      DecodeEncodeAll(items[1..]);
      DecodeOneOfEncode(items[0], EncodeAll(items[1..]));
      assert [items[0]] + items[1..] == items;
    }
  }

  lemma EncodeOfDecodeOne(s: seq<Entry>)
    requires s != [] && s[0].CreateHandle? && |s| >= s[0].numFds + 3
    requires DecodeOne(s).Some?
    ensures Encode(DecodeOne(s).value) == s[..s[0].numFds + 3]
  {
    var item := DecodeOne(s).value;
    var n := s[0].numFds;
    ReadFdsOnlyAddFds(s[0].id, s[1..n + 1]);
    var fds := ReadFds(s[0].id, s[1..n + 1]).value;
    assert item.content.native.data[..n] == fds;
    assert item.content.native.data[n..] == s[0].ints;
    assert s[..n + 3] == [s[0]] + s[1..n + 1] + [s[n + 1], s[n + 2]];
  }

  /** The first decoded item, and the decoding of what follows it. */
  lemma DecodeStep(s: seq<Entry>)
    requires s != [] && Decode(s).Some?
    ensures s[0].CreateHandle? && |s| >= s[0].numFds + 3
    ensures DecodeOne(s).Some? && Decode(s[s[0].numFds + 3..]).Some?
    ensures Decode(s).value == [DecodeOne(s).value] + Decode(s[s[0].numFds + 3..]).value
  {
  }

  lemma EmptyDecodes()
    ensures Decode([]) == Some([])
  {
  }

  /** Nothing but an encoding decodes: with DecodeEncodeAll, the wire form is a bijection. */
  lemma {:induction false} OnlyEncodingsDecode(s: seq<Entry>)
    requires Decode(s).Some?
    ensures EncodeAll(Decode(s).value) == s
    decreases |s|
  {
    hide Decode, DecodeOne, Encode;
    if s == [] {
      EmptyDecodes();
    } else {
      DecodeStep(s);
      var item, tail := DecodeOne(s).value, s[s[0].numFds + 3..];
      OnlyEncodingsDecode(tail);
      EncodeOfDecodeOne(s);
      EncodeAllCons(item, Decode(tail).value);
      assert s == s[..s[0].numFds + 3] + tail;
    }
  }

  lemma EncodeAllCons(item: Item, items: seq<Item>)
    ensures EncodeAll([item] + items) == Encode(item) + EncodeAll(items)
  {
  }
}
