/** The cipher state shared by the three encryption schemes. */
module CryptState {
  import opened Words

  const KEY_WORDS := 1042

  /** Pointers into keys are kept as indices. */
  class CryptSetup {
    var kind: Word
    const keys: array<Word>
    var pcPosn: nat
    var gcBlockPtr: nat
    var gcBlockEndPtr: nat
    var gcSeed: Word
    var bbPosn: nat
    var bbSeed: seq<Byte>

    constructor ()
      ensures keys.Length == KEY_WORDS && fresh(keys)
    {
      keys := new Word[KEY_WORDS];
      kind, pcPosn, gcBlockPtr, gcBlockEndPtr, gcSeed, bbPosn, bbSeed := 0, 0, 0, 0, 0, 0, [];
    }
  }
}
