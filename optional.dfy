/** The usual optional value, used for parse results and for the absent
    arguments and dialog selections of the modelled program. */
module Optional {

  datatype Option<+T> = None | Some(value: T)
}
