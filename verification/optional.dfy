/** The absent-or-present value used where the command code works with
    `null`: a player lookup that found nobody, a grid resolver that gave up. */
module Optional {

  datatype Option<+T> = None | Some(value: T)
}
