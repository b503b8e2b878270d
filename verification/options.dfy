/** Optional values. The page keeps `null` in React state for "nothing yet" and gets
    `undefined` when it destructures a missing array element; both are `None` here. */
module Options {

  datatype Option<T> = None | Some(value: T)
}
