/**
 The behaviour-free component records the rules read: the two renderers and the touch
 handler. Only the fields some rule reads are kept; the drawing-only fields (image
 source, flips, animation frames) are not.
 */
module Render {
  import opened Wrappers

  /** JavaScript's `opt || fallback` for a string: a missing or empty string falls back. */
  function OrString(o: Option<string>, fallback: string): (s: string)
    ensures o.Some? && o.value != "" ==> s == o.value
    ensures o.None? || o.value == "" ==> s == fallback
  {
    if o.Some? && o.value != "" then o.value else fallback
  }

  datatype Shape = Rect | Circle

  datatype SpriteRenderer = SpriteRenderer(
    shape: Shape, width: real, height: real, radius: real,
    color: string, borderColor: string, borderWidth: real, visible: bool)

  /** Defaults: a visible white 32 by 32 rectangle, radius 16, no border colour, width-1 border. */
  function NewSprite(shape: Option<Shape>, width: Option<real>, height: Option<real>, radius: Option<real>,
                     color: Option<string>, borderColor: Option<string>, borderWidth: Option<real>,
                     visible: Option<bool>): (s: SpriteRenderer)
    ensures shape.None? ==> s.shape == Rect
    ensures width.None? ==> s.width == 32.0
    ensures height.None? ==> s.height == 32.0
    ensures radius.None? ==> s.radius == 16.0
    ensures radius.Some? ==> s.radius == radius.value
    ensures color.None? || color.value == "" ==> s.color == "#ffffff"
    ensures borderColor.None? ==> s.borderColor == ""
    ensures borderWidth.None? ==> s.borderWidth == 1.0
    ensures visible.None? ==> s.visible
    ensures shape.Some? ==> s.shape == shape.value
    ensures width.Some? ==> s.width == width.value
    ensures height.Some? ==> s.height == height.value
    ensures color.Some? && color.value != "" ==> s.color == color.value
    ensures borderColor.Some? ==> s.borderColor == borderColor.value
    ensures borderWidth.Some? ==> s.borderWidth == borderWidth.value
    ensures visible.Some? ==> s.visible == visible.value
  {
    SpriteRenderer(shape.GetOr(Rect), width.GetOr(32.0), height.GetOr(32.0), radius.GetOr(16.0),
                   OrString(color, "#ffffff"), OrString(borderColor, ""), borderWidth.GetOr(1.0),
                   visible.GetOr(true))
  }

  datatype TextureRenderer = TextureRenderer(width: real, height: real, offsetX: real, offsetY: real, visible: bool)

  /** Defaults: a visible 32 by 32 texture with no offset. */
  function NewTexture(width: Option<real>, height: Option<real>, offsetX: Option<real>, offsetY: Option<real>,
                      visible: Option<bool>): (t: TextureRenderer)
    ensures width.None? ==> t.width == 32.0
    ensures height.None? ==> t.height == 32.0
    ensures offsetX.None? ==> t.offsetX == 0.0
    ensures offsetY.None? ==> t.offsetY == 0.0
    ensures visible.None? ==> t.visible
  {
    TextureRenderer(width.GetOr(32.0), height.GetOr(32.0), offsetX.GetOr(0.0), offsetY.GetOr(0.0), visible.GetOr(true))
  }

  /**
   A touch handler. Each callback is reduced to whether it is present; `swallowTouch`
   is kept although no rule reads it.
   */
  datatype TouchHandler = TouchHandler(
    onTouchDown: bool, onTouchUp: bool, onClick: bool, onDragStart: bool, onDrag: bool, onDragEnd: bool,
    enabled: bool, draggable: bool, swallowTouch: bool, dragThreshold: real)

  /** Defaults: enabled, not draggable, swallowing, a 5-pixel drag threshold. */
  function NewTouch(onTouchDown: bool, onTouchUp: bool, onClick: bool, onDragStart: bool, onDrag: bool,
                    onDragEnd: bool, enabled: Option<bool>, draggable: Option<bool>,
                    swallowTouch: Option<bool>, dragThreshold: Option<real>): (t: TouchHandler)
    ensures enabled.None? ==> t.enabled
    ensures draggable.None? ==> !t.draggable
    ensures swallowTouch.None? ==> t.swallowTouch
    ensures dragThreshold.None? ==> t.dragThreshold == 5.0
    ensures dragThreshold.Some? ==> t.dragThreshold == dragThreshold.value
  {
    TouchHandler(onTouchDown, onTouchUp, onClick, onDragStart, onDrag, onDragEnd,
                 enabled.GetOr(true), draggable.GetOr(false), swallowTouch.GetOr(true), dragThreshold.GetOr(5.0))
  }
}
