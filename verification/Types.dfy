// Entities shared by the protocol model: block contents, requests, the state
// word of a cache slot and the on-SSD metadata record of a slot.
module Types {

  datatype Option<+T> = None | Some(value: T)

  /** Contents of one block-sized region, sector offset by sector offset. */
  type Data = map<nat, int>

  /** A request. `dbn` is the first sector of the one block it lies in; `full`
      says whether it covers that block exactly. */
  datatype Bio = Bio(write: bool, dbn: nat, full: bool, payload: Data)

  /** What a write leaves in its block. */
  function Patch(was: Data, bio: Bio): Data {
    if bio.full then bio.payload else was + bio.payload
  }

  lemma PatchTwice(was: Data, bio: Bio)
    ensures Patch(Patch(was, bio), bio) == Patch(was, bio)
  {
    assert (was + bio.payload) + bio.payload == was + bio.payload;
  }

  /** The bits of `cache_state`. */
  datatype Bits = Bits(invalid: bool, valid: bool,
                       diskRead: bool, diskWrite: bool, cacheRead: bool, cacheWrite: bool,
                       dirty: bool, fallow1: bool, fallow2: bool) {
    /** Any of BLOCK_IO_INPROG. */
    predicate Busy() { diskRead || diskWrite || cacheRead || cacheWrite }

    /** With BLOCK_IO_INPROG cleared. */
    function Idle(): Bits {
      this.(diskRead := false, diskWrite := false, cacheRead := false, cacheWrite := false)
    }

    /** With FALLOW_DOCLEAN cleared. */
    function Young(): Bits { this.(fallow1 := false, fallow2 := false) }
  }

  const INVALID := Bits(true, false, false, false, false, false, false, false, false)
  const VALID := Bits(false, true, false, false, false, false, false, false, false)

  /** The on-SSD record of a slot: its dbn and (VALID | INVALID | DIRTY). */
  datatype Rec = Rec(dbn: nat, valid: bool, invalid: bool, dirty: bool)

  datatype Mode = WriteBack | WriteThrough | WriteAround

  function At<T>(m: map<nat, T>, k: nat, default: T): T {
    if k in m then m[k] else default
  }
}
