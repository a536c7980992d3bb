// Pointers to structs.
module Pointers {
  datatype Ptr = Null | At(addr: int)
}
