/** An optional value, used for arguments the library may be called
    without and for decoders that can fail. */
module Optional {
  datatype Option<T> = None | Some(value: T)
}
