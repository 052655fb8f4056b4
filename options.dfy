/** The optional value used throughout the model: `None` stands for a missing
    property (`last_name?`) and for the JavaScript `NaN` that a failed parse
    produces. */
module Options {

  datatype Option<+T> = None | Some(value: T)
}
