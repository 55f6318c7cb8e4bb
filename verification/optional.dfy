/** An optional value: `None` stands for the JavaScript `null`/exception outcomes of the page
    scripts (a regular expression that does not match, a querySelector that finds nothing, a
    DOM call that throws). */
module Optional {

  datatype Option<+T> = None | Some(value: T)
}
