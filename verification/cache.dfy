/** The position-keyed cache of per-draw GPU buffers that `Renderer::render`
    keeps in `primary_uniforms` (src/renderer.rs), as values: the data a
    frame carries, one slot of the cache, and the sync pass as functions over
    the pair (slots, device). The imperative `Renderer.Render` is proved
    against `SyncAll`; the lemmas say what one frame does to the cache. */
module Cache {
  import opened Render

  /** Bytes per vertex: a `Float32x3` position then a `Float32x4` colour. */
  const VERTEX_STRIDE: nat := 12 + 16
  /** Bytes per index: indices are bound as `IndexFormat::Uint32`. */
  const INDEX_SIZE: nat := 4
  /** Uniform layout: the transform at byte 0, the camera at byte 64. */
  const TRANSFORM_OFFSET: nat := 0
  const CAMERA_OFFSET: nat := 64
  /** 128 bytes: two 4x4 `f32` matrices. */
  const UNIFORM_WORDS: nat := 32

  /** A 4x4 `f32` matrix as its 16 words; its arithmetic is not modelled. */
  type Mat4 = m: seq<Word> | |m| == 16 witness [0, 0, 0, 0, 0, 0, 0, 0, 0, 0, 0, 0, 0, 0, 0, 0]
  type Vec3 = s: seq<Word> | |s| == 3 witness [0, 0, 0]
  type Vec4 = s: seq<Word> | |s| == 4 witness [0, 0, 0, 0]

  datatype Vertex = Vertex(position: Vec3, color: Vec4)

  /** A triangulated mesh as the shape library hands it over. */
  datatype Mesh = Mesh(vertices: seq<Vertex>, indices: seq<U32>)

  /** One draw request of a frame: the mesh, its model transform and the
      camera's view-projection matrix. */
  datatype Renderable = Ui(mesh: Mesh, transform: Mat4, camera: Mat4)

  /** The bytes `cast_slice(&mesh.vertices)` yields: each vertex's position
      then its colour, vertex after vertex. */
  function VertexData(vs: seq<Vertex>): (r: seq<Word>)
    ensures ByteLen(r) == VERTEX_STRIDE * |vs|
    ensures forall k :: 0 <= k < |vs| ==> r[7 * k..7 * k + 7] == vs[k].position + vs[k].color
  {
    if vs == [] then []
    else
      var front := VertexData(vs[..|vs| - 1]);
      var r := front + (vs[|vs| - 1].position + vs[|vs| - 1].color);
      assert forall k :: 0 <= k < |vs| - 1 ==> r[7 * k..7 * k + 7] == front[7 * k..7 * k + 7];
      r
  }

  function IndexByteLen(m: Mesh): (n: nat)
  {
    INDEX_SIZE * |m.indices|
  }

  function VertexByteLen(m: Mesh): (n: nat)
  {
    VERTEX_STRIDE * |m.vertices|
  }

  /** `PrimaryData`: the buffers of one draw position, the byte sizes last
      written to its vertex and index buffers, and its index count. */
  datatype PrimaryData = PrimaryData(
    uniformBuffer: Handle,
    uniformBindGroup: Handle,
    vertexBuffer: Handle,
    vertexBufferSize: nat,
    indexBuffer: Handle,
    indexBufferSize: nat,
    indices: U32)

  /** The renderer's slots together with the device that holds their buffers. */
  datatype CacheState = CacheState(slots: seq<PrimaryData>, device: Device)

  /** A slot's buffers are live and as long as it records; its bind group
      binds its uniform buffer; its index count matches its index buffer. */
  ghost predicate SlotValid(p: PrimaryData, d: Device)
  {
    p.uniformBuffer in d.buffers && |d.buffers[p.uniformBuffer]| == UNIFORM_WORDS &&
    p.uniformBindGroup in d.bindGroups && d.bindGroups[p.uniformBindGroup] == p.uniformBuffer &&
    p.vertexBuffer in d.buffers && ByteLen(d.buffers[p.vertexBuffer]) == p.vertexBufferSize &&
    p.indexBuffer in d.buffers && ByteLen(d.buffers[p.indexBuffer]) == p.indexBufferSize &&
    p.indices == AsU32(p.indexBufferSize / INDEX_SIZE) &&
    p.uniformBuffer != p.vertexBuffer && p.uniformBuffer != p.indexBuffer &&
    p.vertexBuffer != p.indexBuffer
  }

  /** Two slots share no buffer. */
  ghost predicate Disjoint(p: PrimaryData, q: PrimaryData)
  {
    p.uniformBuffer != q.uniformBuffer && p.uniformBuffer != q.vertexBuffer && p.uniformBuffer != q.indexBuffer &&
    p.vertexBuffer != q.uniformBuffer && p.vertexBuffer != q.vertexBuffer && p.vertexBuffer != q.indexBuffer &&
    p.indexBuffer != q.uniformBuffer && p.indexBuffer != q.vertexBuffer && p.indexBuffer != q.indexBuffer
  }

  ghost predicate CacheValid(c: CacheState)
  {
    c.device.Valid() &&
    (forall i :: 0 <= i < |c.slots| ==> SlotValid(c.slots[i], c.device)) &&
    (forall i, j :: 0 <= i < j < |c.slots| ==> Disjoint(c.slots[i], c.slots[j]))
  }

  /** Slot `p` in device `d` holds exactly the data of renderable `r`. */
  ghost predicate Uploaded(p: PrimaryData, d: Device, r: Renderable)
  {
    p.indexBufferSize == IndexByteLen(r.mesh) &&
    p.vertexBufferSize == VertexByteLen(r.mesh) &&
    p.indices == AsU32(|r.mesh.indices|) &&
    p.uniformBuffer in d.buffers && d.buffers[p.uniformBuffer] == r.transform + r.camera &&
    p.vertexBuffer in d.buffers && d.buffers[p.vertexBuffer] == VertexData(r.mesh.vertices) &&
    p.indexBuffer in d.buffers && d.buffers[p.indexBuffer] == r.mesh.indices &&
    p.uniformBindGroup in d.bindGroups && d.bindGroups[p.uniformBindGroup] == p.uniformBuffer
  }

  /** The buffers and bind group of slot `p` read the same in `d'` as in `d`. */
  ghost predicate Kept(p: PrimaryData, d: Device, d': Device)
  {
    p.uniformBuffer in d.buffers && p.uniformBuffer in d'.buffers &&
    d'.buffers[p.uniformBuffer] == d.buffers[p.uniformBuffer] &&
    p.vertexBuffer in d.buffers && p.vertexBuffer in d'.buffers &&
    d'.buffers[p.vertexBuffer] == d.buffers[p.vertexBuffer] &&
    p.indexBuffer in d.buffers && p.indexBuffer in d'.buffers &&
    d'.buffers[p.indexBuffer] == d.buffers[p.indexBuffer] &&
    p.uniformBindGroup in d.bindGroups && p.uniformBindGroup in d'.bindGroups &&
    d'.bindGroups[p.uniformBindGroup] == d.bindGroups[p.uniformBindGroup]
  }

  /** The byte lengths slot `p` records are those of mesh `m`. */
  ghost predicate SizesMatch(p: PrimaryData, m: Mesh)
  {
    p.indexBufferSize == IndexByteLen(m) && p.vertexBufferSize == VertexByteLen(m)
  }

  /** What an existing slot `p` becomes when it is synced to mesh `m`: same
      uniform buffer and bind group; each geometry buffer kept exactly when
      the new byte length equals the recorded one, and otherwise replaced. */
  ghost predicate Reused(p: PrimaryData, q: PrimaryData, m: Mesh)
  {
    q.uniformBuffer == p.uniformBuffer && q.uniformBindGroup == p.uniformBindGroup &&
    (q.indexBuffer == p.indexBuffer <==> p.indexBufferSize == IndexByteLen(m)) &&
    (q.vertexBuffer == p.vertexBuffer <==> p.vertexBufferSize == VertexByteLen(m))
  }

  /** A geometry buffer of slot `p` whose byte length differs from mesh
      `m`'s is no longer alive in `d'`: replacing it released it. */
  ghost predicate Released(p: PrimaryData, d': Device, m: Mesh)
  {
    (p.indexBufferSize != IndexByteLen(m) ==> p.indexBuffer !in d'.buffers) &&
    (p.vertexBufferSize != VertexByteLen(m) ==> p.vertexBuffer !in d'.buffers)
  }

  /** Every buffer other than those in `touched` is left as it was, every
      buffer that appears is fresh, and no bind group changes. */
  ghost predicate Untouched(d: Device, d': Device, touched: set<Handle>)
  {
    d'.next >= d.next &&
    (forall h :: h in d.buffers && h !in touched ==> h in d'.buffers && d'.buffers[h] == d.buffers[h]) &&
    (forall h :: h in d'.buffers && h !in d.buffers ==> h >= d.next) &&
    (forall g :: g in d.bindGroups ==> g in d'.bindGroups && d'.bindGroups[g] == d.bindGroups[g])
  }

  /** The two matrix writes into an existing uniform buffer. */
  ghost function WriteUniforms(d: Device, p: PrimaryData, r: Renderable): (d': Device)
    requires SlotValid(p, d)
    ensures d' == d.(buffers := d.buffers[p.uniformBuffer := r.transform + r.camera])
  {
    var d1 := WriteBuffer(d, p.uniformBuffer, TRANSFORM_OFFSET, r.transform);
    var d2 := WriteBuffer(d1, p.uniformBuffer, CAMERA_OFFSET, r.camera);
    assert d2.buffers[p.uniformBuffer] == r.transform + r.camera by {
      var b1 := d1.buffers[p.uniformBuffer];
      var b2 := d2.buffers[p.uniformBuffer];
      assert b1[0..16] == r.transform;
      assert b2[..16] == b1[..16];
      assert b2 == b2[..16] + b2[16..32];
    }
    d2
  }

  /** Index half of syncing an existing slot: write in place when the byte
      length is unchanged, otherwise create a new buffer and drop the old. */
  ghost function SyncIndex(d: Device, p: PrimaryData, m: Mesh): (r: (Device, PrimaryData))
    requires d.Valid() && SlotValid(p, d)
    ensures r.0.Valid() && SlotValid(r.1, r.0)
    ensures r.1 == p.(indexBuffer := r.1.indexBuffer, indexBufferSize := r.1.indexBufferSize, indices := r.1.indices)
    ensures r.1.indexBuffer == p.indexBuffer <==> p.indexBufferSize == IndexByteLen(m)
    ensures r.1.indexBuffer == p.indexBuffer || r.1.indexBuffer >= d.next
    ensures r.1.indexBufferSize == IndexByteLen(m) && r.1.indices == AsU32(|m.indices|)
    ensures r.0.buffers[r.1.indexBuffer] == m.indices
    ensures p.indexBufferSize != IndexByteLen(m) ==> p.indexBuffer !in r.0.buffers
    ensures Untouched(d, r.0, {p.indexBuffer})
    ensures r.0.next == if p.indexBufferSize == IndexByteLen(m) then d.next else d.next + 1
  {
    if p.indexBufferSize == IndexByteLen(m) then
      (WriteBuffer(d, p.indexBuffer, 0, m.indices), p)
    else
      var (d1, h) := CreateBuffer(d, m.indices);
      (DropBuffer(d1, p.indexBuffer),
       p.(indexBuffer := h, indexBufferSize := IndexByteLen(m), indices := AsU32(|m.indices|)))
  }

  /** Vertex half of syncing an existing slot, by the same rule. */
  ghost function SyncVertex(d: Device, p: PrimaryData, m: Mesh): (r: (Device, PrimaryData))
    requires d.Valid() && SlotValid(p, d)
    ensures r.0.Valid() && SlotValid(r.1, r.0)
    ensures r.1 == p.(vertexBuffer := r.1.vertexBuffer, vertexBufferSize := r.1.vertexBufferSize)
    ensures r.1.vertexBuffer == p.vertexBuffer <==> p.vertexBufferSize == VertexByteLen(m)
    ensures r.1.vertexBuffer == p.vertexBuffer || r.1.vertexBuffer >= d.next
    ensures r.1.vertexBufferSize == VertexByteLen(m)
    ensures r.0.buffers[r.1.vertexBuffer] == VertexData(m.vertices)
    ensures p.vertexBufferSize != VertexByteLen(m) ==> p.vertexBuffer !in r.0.buffers
    ensures Untouched(d, r.0, {p.vertexBuffer})
    ensures r.0.next == if p.vertexBufferSize == VertexByteLen(m) then d.next else d.next + 1
  {
    var data := VertexData(m.vertices);
    if p.vertexBufferSize == ByteLen(data) then
      (WriteBuffer(d, p.vertexBuffer, 0, data), p)
    else
      var (d1, h) := CreateBuffer(d, data);
      (DropBuffer(d1, p.vertexBuffer), p.(vertexBuffer := h, vertexBufferSize := ByteLen(data)))
  }

  /** A fresh slot for a position the cache has not seen: uniform buffer,
      bind group, vertex buffer and index buffer, created in that order. */
  ghost function NewSlot(d: Device, r: Renderable): (res: (Device, PrimaryData))
    requires d.Valid()
    ensures res.0.Valid() && SlotValid(res.1, res.0) && Uploaded(res.1, res.0, r)
    ensures Untouched(d, res.0, {})
    ensures res.1.uniformBuffer >= d.next && res.1.uniformBindGroup >= d.next
    ensures res.1.vertexBuffer >= d.next && res.1.indexBuffer >= d.next
  {
    var (d1, u) := CreateBuffer(d, r.transform + r.camera);
    var (d2, g) := CreateBindGroup(d1, u);
    var vertexData := VertexData(r.mesh.vertices);
    var (d3, v) := CreateBuffer(d2, vertexData);
    var (d4, i) := CreateBuffer(d3, r.mesh.indices);
    (d4, PrimaryData(u, g, v, ByteLen(vertexData), i, IndexByteLen(r.mesh), AsU32(|r.mesh.indices|)))
  }

  /** Syncing an existing slot `p` to `r`: both matrix writes, then the
      index buffer, then the vertex buffer. */
  ghost function UpdateSlot(d: Device, p: PrimaryData, r: Renderable): (res: (Device, PrimaryData))
    requires d.Valid() && SlotValid(p, d)
    ensures res.0.Valid() && SlotValid(res.1, res.0) && Uploaded(res.1, res.0, r)
    ensures Reused(p, res.1, r.mesh)
    ensures res.1.vertexBuffer == p.vertexBuffer || res.1.vertexBuffer >= d.next
    ensures res.1.indexBuffer == p.indexBuffer || res.1.indexBuffer >= d.next
    ensures Released(p, res.0, r.mesh)
    ensures Untouched(d, res.0, {p.uniformBuffer, p.vertexBuffer, p.indexBuffer})
    ensures SizesMatch(p, r.mesh) ==> res.0.next == d.next
  {
    var d1 := WriteUniforms(d, p, r);
    var (d2, p2) := SyncIndex(d1, p, r.mesh);
    var (d3, p3) := SyncVertex(d2, p2, r.mesh);
    (d3, p3)
  }

  /** A slot that shares no buffer with the ones an operation touched keeps
      its buffers, its bind group and its validity. */
  lemma OtherSlotKept(q: PrimaryData, d: Device, d': Device, touched: set<Handle>)
    requires SlotValid(q, d) && Untouched(d, d', touched)
    requires q.uniformBuffer !in touched && q.vertexBuffer !in touched && q.indexBuffer !in touched
    ensures SlotValid(q, d') && Kept(q, d, d')
  {
  }

  /** Sync an existing position `i`: only slot `i` and its buffers change. */
  ghost function UpdateAt(c: CacheState, i: nat, r: Renderable): (c': CacheState)
    requires CacheValid(c) && i < |c.slots|
    ensures CacheValid(c') && |c'.slots| == |c.slots| && c'.device.next >= c.device.next
    ensures Uploaded(c'.slots[i], c'.device, r) && Reused(c.slots[i], c'.slots[i], r.mesh)
    ensures Released(c.slots[i], c'.device, r.mesh)
    ensures forall j :: 0 <= j < |c.slots| && j != i ==> c'.slots[j] == c.slots[j]
    ensures forall j :: 0 <= j < |c.slots| && j != i ==> Kept(c.slots[j], c.device, c'.device)
    ensures SizesMatch(c.slots[i], r.mesh) ==> c'.device.next == c.device.next
  {
    var p := c.slots[i];
    var (d1, q) := UpdateSlot(c.device, p, r);
    var c' := CacheState(c.slots[i := q], d1);
    forall j | 0 <= j < |c.slots| && j != i
      ensures SlotValid(c.slots[j], d1) && Kept(c.slots[j], c.device, d1)
      ensures Disjoint(c.slots[j], q) && Disjoint(q, c.slots[j])
    {
      assert Disjoint(c.slots[j], p) by {
        if j < i { assert Disjoint(c.slots[j], c.slots[i]); }
        else { assert Disjoint(c.slots[i], c.slots[j]); }
      }
      assert SlotValid(c.slots[j], c.device);
      OtherSlotKept(c.slots[j], c.device, d1, {p.uniformBuffer, p.vertexBuffer, p.indexBuffer});
    }
    c'
  }

  /** Sync a position the cache has not seen: append a fresh slot. */
  ghost function Append(c: CacheState, r: Renderable): (c': CacheState)
    requires CacheValid(c)
    ensures CacheValid(c') && |c'.slots| == |c.slots| + 1 && c'.device.next >= c.device.next
    ensures Uploaded(c'.slots[|c.slots|], c'.device, r)
    ensures c'.slots[..|c.slots|] == c.slots
    ensures forall j :: 0 <= j < |c.slots| ==> Kept(c.slots[j], c.device, c'.device)
  {
    var (d1, p) := NewSlot(c.device, r);
    var c' := CacheState(c.slots + [p], d1);
    forall j | 0 <= j < |c.slots|
      ensures SlotValid(c.slots[j], d1) && Kept(c.slots[j], c.device, d1) && Disjoint(c.slots[j], p)
    {
      assert SlotValid(c.slots[j], c.device);
      OtherSlotKept(c.slots[j], c.device, d1, {});
    }
    c'
  }

  /** The sync step for position `i` of a frame: update slot `i` if the cache
      has it, else append a new slot. */
  ghost function SyncSlot(c: CacheState, i: nat, r: Renderable): (c': CacheState)
    requires CacheValid(c) && i <= |c.slots|
    ensures CacheValid(c')
    ensures |c'.slots| == if i < |c.slots| then |c.slots| else i + 1
  {
    if i < |c.slots| then UpdateAt(c, i, r) else Append(c, r)
  }

  /** What one sync step does. Slot `i` then holds exactly `r`'s data; every
      other slot and its buffers are left alone; an existing slot keeps its
      uniform buffer and bind group and keeps each geometry buffer exactly
      when the byte length is unchanged, so matching lengths change no slot
      and allocate nothing. */
  lemma SyncSlotFacts(c: CacheState, i: nat, r: Renderable)
    requires CacheValid(c) && i <= |c.slots|
    ensures SyncSlot(c, i, r).device.next >= c.device.next
    ensures Uploaded(SyncSlot(c, i, r).slots[i], SyncSlot(c, i, r).device, r)
    ensures forall j :: 0 <= j < |c.slots| && j != i ==> SyncSlot(c, i, r).slots[j] == c.slots[j]
    ensures forall j :: 0 <= j < |c.slots| && j != i ==> Kept(c.slots[j], c.device, SyncSlot(c, i, r).device)
    ensures i < |c.slots| ==> Reused(c.slots[i], SyncSlot(c, i, r).slots[i], r.mesh)
    ensures i < |c.slots| && SizesMatch(c.slots[i], r.mesh) ==>
      SyncSlot(c, i, r).device.next == c.device.next && SyncSlot(c, i, r).slots == c.slots
  {
    var c' := SyncSlot(c, i, r);
    if i < |c.slots| && SizesMatch(c.slots[i], r.mesh) {
      assert SlotValid(c.slots[i], c.device);
      SameSlotWhenSizesMatch(c.slots[i], c.device, c'.slots[i], c'.device, r);
      assert c'.slots == c.slots;
    }
  }

  /** Syncing an existing slot releases each geometry buffer it replaced. */
  lemma SyncSlotReleases(c: CacheState, i: nat, r: Renderable)
    requires CacheValid(c) && i < |c.slots|
    ensures Released(c.slots[i], SyncSlot(c, i, r).device, r.mesh)
  {
  }

  /** Syncing an existing slot to a mesh of the byte lengths it records
      changes no slot record and draws no handle. */
  lemma SyncSlotNoRealloc(c: CacheState, i: nat, r: Renderable)
    requires CacheValid(c) && i < |c.slots| && SizesMatch(c.slots[i], r.mesh)
    ensures SyncSlot(c, i, r).slots == c.slots && SyncSlot(c, i, r).device.next == c.device.next
  {
    SyncSlotFacts(c, i, r);
  }

  /** An existing slot synced to a mesh of the byte lengths it records ends
      up as the very same record. */
  lemma SameSlotWhenSizesMatch(p: PrimaryData, d: Device, q: PrimaryData, d': Device, r: Renderable)
    requires SlotValid(p, d) && SizesMatch(p, r.mesh) && Reused(p, q, r.mesh) && Uploaded(q, d', r)
    ensures q == p
  {
    assert p.indexBufferSize / INDEX_SIZE == |r.mesh.indices|;
  }

  function Max(a: nat, b: nat): (m: nat)
  {
    if a < b then b else a
  }

  /** The sync pass over a whole frame: positions `0 .. |rs|` in order. */
  ghost function SyncAll(c: CacheState, rs: seq<Renderable>): (c': CacheState)
    requires CacheValid(c)
    ensures CacheValid(c')
    ensures |c'.slots| == Max(|c.slots|, |rs|)
    decreases |rs|
  {
    if rs == [] then c
    else SyncSlot(SyncAll(c, rs[..|rs| - 1]), |rs| - 1, rs[|rs| - 1])
  }

  /** Syncing the first `i + 1` renderables is syncing the first `i` and then
      position `i`. */
  lemma SyncAllStep(c: CacheState, rs: seq<Renderable>, i: nat)
    requires CacheValid(c) && i < |rs|
    ensures SyncAll(c, rs[..i + 1]) == SyncSlot(SyncAll(c, rs[..i]), i, rs[i])
  {
    assert rs[..i + 1][..i] == rs[..i];
  }

  /** The last position of a frame leaves every other slot's record and
      buffers as the earlier positions left them. */
  lemma SyncAllLastKeeps(c: CacheState, rs: seq<Renderable>, j: nat)
    requires CacheValid(c) && rs != [] && j < |SyncAll(c, rs[..|rs| - 1]).slots| && j != |rs| - 1
    ensures SyncAll(c, rs).slots[j] == SyncAll(c, rs[..|rs| - 1]).slots[j]
    ensures Kept(SyncAll(c, rs[..|rs| - 1]).slots[j], SyncAll(c, rs[..|rs| - 1]).device, SyncAll(c, rs).device)
  {
    var n := |rs| - 1;
    SyncSlotFacts(SyncAll(c, rs[..n]), n, rs[n]);
  }

  /** The last position of a frame holds that renderable's data. */
  lemma SyncAllLastUploads(c: CacheState, rs: seq<Renderable>)
    requires CacheValid(c) && rs != []
    ensures Uploaded(SyncAll(c, rs).slots[|rs| - 1], SyncAll(c, rs).device, rs[|rs| - 1])
  {
    var n := |rs| - 1;
    SyncSlotFacts(SyncAll(c, rs[..n]), n, rs[n]);
  }

  /** The last position of a frame reuses the slot the cache had there. */
  lemma SyncAllLastReuses(c: CacheState, rs: seq<Renderable>)
    requires CacheValid(c) && rs != [] && |rs| - 1 < |c.slots|
    ensures Reused(SyncAll(c, rs[..|rs| - 1]).slots[|rs| - 1], SyncAll(c, rs).slots[|rs| - 1], rs[|rs| - 1].mesh)
  {
    var n := |rs| - 1;
    SyncSlotFacts(SyncAll(c, rs[..n]), n, rs[n]);
  }

  lemma KeptTrans(p: PrimaryData, d1: Device, d2: Device, d3: Device)
    requires Kept(p, d1, d2) && Kept(p, d2, d3)
    ensures Kept(p, d1, d3)
  {
  }

  lemma KeptUploaded(p: PrimaryData, d: Device, d': Device, r: Renderable)
    requires Uploaded(p, d, r) && Kept(p, d, d')
    ensures Uploaded(p, d', r)
  {
  }

  /** Slots at positions the frame does not reach keep their record and
      their buffers. */
  lemma {:induction false} SyncAllLeavesTail(c: CacheState, rs: seq<Renderable>, j: nat)
    requires CacheValid(c) && |rs| <= j < |c.slots|
    ensures SyncAll(c, rs).slots[j] == c.slots[j]
    ensures Kept(c.slots[j], c.device, SyncAll(c, rs).device)
    decreases |rs|
  {
    if rs != [] {
      var n := |rs| - 1;
      SyncAllLeavesTail(c, rs[..n], j);
      SyncAllLastKeeps(c, rs, j);
      KeptTrans(c.slots[j], c.device, SyncAll(c, rs[..n]).device, SyncAll(c, rs).device);
    }
  }

  /** After the sync pass every position of the frame holds exactly that
      renderable's data: sizes, index count, and buffer contents (the
      transform at byte 0 and the camera at byte 64 of the uniform buffer). */
  lemma {:induction false} SyncAllUploads(c: CacheState, rs: seq<Renderable>, j: nat)
    requires CacheValid(c) && j < |rs|
    ensures Uploaded(SyncAll(c, rs).slots[j], SyncAll(c, rs).device, rs[j])
    decreases |rs|
  {
    var n := |rs| - 1;
    if j < n {
      var prev := SyncAll(c, rs[..n]);
      SyncAllUploads(c, rs[..n], j);
      assert rs[..n][j] == rs[j];
      SyncAllLastKeeps(c, rs, j);
      KeptUploaded(prev.slots[j], prev.device, SyncAll(c, rs).device, rs[j]);
    } else {
      SyncAllLastUploads(c, rs);
    }
  }

  /** A slot the cache already had keeps its uniform buffer and bind group,
      and keeps its index (vertex) buffer exactly when the frame's index
      (vertex) byte length equals the recorded one. */
  lemma {:induction false} SyncAllReuses(c: CacheState, rs: seq<Renderable>, j: nat)
    requires CacheValid(c) && j < |rs| && j < |c.slots|
    ensures Reused(c.slots[j], SyncAll(c, rs).slots[j], rs[j].mesh)
    decreases |rs|
  {
    var n := |rs| - 1;
    if j == n {
      SyncAllLeavesTail(c, rs[..n], j);
      SyncAllLastReuses(c, rs);
    } else {
      SyncAllReuses(c, rs[..n], j);
      assert rs[..n][j] == rs[j];
      SyncAllLastKeeps(c, rs, j);
    }
  }

  /** Every position of the frame is already cached with the byte lengths
      the frame brings. */
  ghost predicate SameSizes(c: CacheState, rs: seq<Renderable>)
  {
    |rs| <= |c.slots| &&
    forall j :: 0 <= j < |rs| ==> SizesMatch(c.slots[j], rs[j].mesh)
  }

  /** A frame whose byte lengths match the cache allocates nothing: the
      slots are unchanged and no handle is drawn from the device. */
  lemma {:induction false} SyncAllNoRealloc(c: CacheState, rs: seq<Renderable>)
    requires CacheValid(c) && SameSizes(c, rs)
    ensures SyncAll(c, rs).slots == c.slots
    ensures SyncAll(c, rs).device.next == c.device.next
    decreases |rs|
  {
    if rs != [] {
      var n := |rs| - 1;
      SameSizesPrefix(c, rs, n);
      SyncAllNoRealloc(c, rs[..n]);
      SyncAllNoReallocStep(c, rs);
    }
  }

  lemma SameSizesPrefix(c: CacheState, rs: seq<Renderable>, n: nat)
    requires SameSizes(c, rs) && n <= |rs|
    ensures SameSizes(c, rs[..n])
  {
    forall j | 0 <= j < n
      ensures SizesMatch(c.slots[j], rs[..n][j].mesh)
    {
      assert rs[..n][j] == rs[j];
    }
  }

  /** The last position of a frame whose earlier positions left the cache
      as it was, and whose byte lengths match the cache, changes nothing. */
  lemma SyncAllNoReallocStep(c: CacheState, rs: seq<Renderable>)
    requires CacheValid(c) && SameSizes(c, rs) && rs != []
    ensures SyncAll(c, rs[..|rs| - 1]).slots == c.slots &&
            SyncAll(c, rs[..|rs| - 1]).device.next == c.device.next ==>
            SyncAll(c, rs).slots == c.slots && SyncAll(c, rs).device.next == c.device.next
  {
    var n := |rs| - 1;
    var prev := SyncAll(c, rs[..n]);
    if prev.slots == c.slots && prev.device.next == c.device.next {
      SyncSlotNoRealloc(prev, n, rs[n]);
    }
  }

  /** Every position of the frame already holds that renderable's data. */
  ghost predicate Settled(c: CacheState, rs: seq<Renderable>)
  {
    |rs| <= |c.slots| && forall j :: 0 <= j < |rs| ==> Uploaded(c.slots[j], c.device, rs[j])
  }

  lemma OverwriteWhole(buf: seq<Word>)
    ensures Overwrite(buf, 0, buf) == buf
  {
    assert Overwrite(buf, 0, buf) == Overwrite(buf, 0, buf)[0..|buf|];
  }

  /** Syncing a position that already holds the renderable changes nothing. */
  lemma SyncSlotSettled(c: CacheState, i: nat, r: Renderable)
    requires CacheValid(c) && i < |c.slots| && Uploaded(c.slots[i], c.device, r)
    ensures SyncSlot(c, i, r) == c
  {
    var p := c.slots[i];
    var d := c.device;
    assert SlotValid(p, d);
    var d1 := WriteUniforms(d, p, r);
    assert d1.buffers == d.buffers;
    OverwriteWhole(r.mesh.indices);
    OverwriteWhole(VertexData(r.mesh.vertices));
    var (d2, p2) := SyncIndex(d1, p, r.mesh);
    assert d2.buffers == d.buffers && p2 == p;
    var (d3, p3) := SyncVertex(d2, p2, r.mesh);
    assert d3.buffers == d.buffers && p3 == p;
    assert c.slots[i := p] == c.slots;
  }

  lemma {:induction false} SyncAllSettled(c: CacheState, rs: seq<Renderable>)
    requires CacheValid(c) && Settled(c, rs)
    ensures SyncAll(c, rs) == c
    decreases |rs|
  {
    if rs != [] {
      var n := |rs| - 1;
      assert Settled(c, rs[..n]);
      SyncAllSettled(c, rs[..n]);
      SyncSlotSettled(c, n, rs[n]);
    }
  }

  /** Submitting the same frame twice leaves the cache and every buffer as
      the first submission left them: nothing drifts or accumulates. */
  lemma SyncAllIdempotent(c: CacheState, rs: seq<Renderable>)
    requires CacheValid(c)
    ensures SyncAll(SyncAll(c, rs), rs) == SyncAll(c, rs)
  {
    var c' := SyncAll(c, rs);
    forall j | 0 <= j < |rs|
      ensures Uploaded(c'.slots[j], c'.device, rs[j])
    {
      SyncAllUploads(c, rs, j);
    }
    SyncAllSettled(c', rs);
  }

  /** One `draw_indexed(0..indexCount, 0, 0..1)` after binding a slot's bind
      group, vertex buffer and `Uint32` index buffer. */
  datatype DrawIndexed = DrawIndexed(bindGroup: Handle, vertexBuffer: Handle, indexBuffer: Handle, indexCount: U32)

  /** The draw the draw pass issues for slot `p`. */
  function DrawOf(p: PrimaryData): (dc: DrawIndexed)
  {
    DrawIndexed(p.uniformBindGroup, p.vertexBuffer, p.indexBuffer, p.indices)
  }

  /** Draw `dc`, run against device `d`, shows renderable `r`: what it binds
      holds `r`'s matrices, vertices and indices, and it covers `|indices| as u32`
      of `r`'s indices. */
  ghost predicate DrawShows(dc: DrawIndexed, d: Device, r: Renderable)
  {
    dc.bindGroup in d.bindGroups && d.bindGroups[dc.bindGroup] in d.buffers &&
    d.buffers[d.bindGroups[dc.bindGroup]] == r.transform + r.camera &&
    dc.vertexBuffer in d.buffers && d.buffers[dc.vertexBuffer] == VertexData(r.mesh.vertices) &&
    dc.indexBuffer in d.buffers && d.buffers[dc.indexBuffer] == r.mesh.indices &&
    dc.indexCount == AsU32(|r.mesh.indices|)
  }

  /** Because the whole sync pass precedes the draw pass, draw `k` of a frame
      sees exactly the data of renderable `k`. */
  lemma SyncedDrawShows(c: CacheState, rs: seq<Renderable>, k: nat)
    requires CacheValid(c) && k < |rs|
    ensures DrawShows(DrawOf(SyncAll(c, rs).slots[k]), SyncAll(c, rs).device, rs[k])
  {
    SyncAllUploads(c, rs, k);
  }

  /** Frame `f2` brings, position by position, the byte lengths `f1` brought. */
  ghost predicate SameMeshSizes(f1: seq<Renderable>, f2: seq<Renderable>)
  {
    |f2| <= |f1| &&
    forall j :: 0 <= j < |f2| ==>
      IndexByteLen(f2[j].mesh) == IndexByteLen(f1[j].mesh) &&
      VertexByteLen(f2[j].mesh) == VertexByteLen(f1[j].mesh)
  }

  /** A frame whose meshes have, position by position, the byte lengths of
      the previous frame's reallocates nothing: every slot keeps its record
      (all its buffer handles) and no handle is drawn from the device. */
  lemma SecondFrameNoRealloc(c: CacheState, f1: seq<Renderable>, f2: seq<Renderable>)
    requires CacheValid(c) && SameMeshSizes(f1, f2)
    ensures SyncAll(SyncAll(c, f1), f2).slots == SyncAll(c, f1).slots
    ensures SyncAll(SyncAll(c, f1), f2).device.next == SyncAll(c, f1).device.next
  {
    var c1 := SyncAll(c, f1);
    forall j | 0 <= j < |f2|
      ensures SizesMatch(c1.slots[j], f2[j].mesh)
    {
      SyncAllUploads(c, f1, j);
    }
    SyncAllNoRealloc(c1, f2);
  }

  /** A frame one longer than the cache, whose first `N` positions bring the
      byte lengths already cached, adds exactly one slot and leaves the first
      `N` slots (all their buffer handles) as they were. */
  lemma SyncAllGrowsByOne(c: CacheState, rs: seq<Renderable>)
    requires CacheValid(c) && |rs| == |c.slots| + 1 && SameSizes(c, rs[..|c.slots|])
    ensures |SyncAll(c, rs).slots| == |c.slots| + 1
    ensures SyncAll(c, rs).slots[..|c.slots|] == c.slots
  {
    SyncAllNoRealloc(c, rs[..|c.slots|]);
  }

  /** One triangle (three indices) drawn into an empty cache yields one slot
      whose draw covers exactly three indices. */
  lemma SingleTriangle(d: Device, r: Renderable)
    requires d.Valid() && |r.mesh.indices| == 3
    ensures |SyncAll(CacheState([], d), [r]).slots| == 1
    ensures DrawOf(SyncAll(CacheState([], d), [r]).slots[0]).indexCount == 3
  {
    SyncAllUploads(CacheState([], d), [r], 0);
  }
}
