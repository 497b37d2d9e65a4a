/** The user intents the rotary decoder sends to the render loop. */
module Events {

  datatype InputEvent = Left | Right | Click | LongPress
}
