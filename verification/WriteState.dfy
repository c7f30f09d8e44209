// The write-once life of a buffer's contents, as its local handle state records it.

module WriteState {
  datatype Writing = Unset | InUse | Finalized
}
