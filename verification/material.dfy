/**
 * Materials and the Phong lighting term: an ambient part, a diffuse part
 * that needs the light in front of the surface, and a specular part that
 * also needs the reflected light to reach the eye. The light source is the
 * plain position-and-intensity record of the tracer. The square root used to
 * normalise the light vector and the power used for the highlight are
 * parameters.
 */
module Materials {
  import opened Tuples
  import C = Colors

  datatype Material = Material(color: C.Color, ambient: real, diffuse: real, specular: real, shininess: real)

  /** `Light`: a point light with a colour intensity. */
  datatype Light = Light(position: Tuple, intensity: C.Color)

  /** `Material::default()`: white, ambient 0.1, diffuse 0.9, specular 0.9, shininess 200. */
  const Default: Material := Material(C.White(), 0.1, 0.9, 0.9, 200.0)

  /**
   * What `lighting` needs to get through its assertions: the direction to the
   * light is a vector of non-zero length (`norm` and `dot` assert w = 0, and a
   * zero length gives NaN components), and when the light is in front of the
   * surface the normal is a vector (`reflect` asserts it).
   */
  predicate CanLight(light: Light, point: Tuple, normalv: Tuple, sqrt: real -> real)
  {
    var toLight := Sub(light.position, point);
    && IsVector(toLight)
    && Magnitude(toLight, sqrt) != 0.0
    && (Dot(Normalize(toLight, sqrt), normalv) >= 0.0 ==> IsVector(normalv))
  }

  /** The unit vector from the point towards the light. */
  function LightVector(light: Light, point: Tuple, sqrt: real -> real): (v: Tuple)
    requires IsVector(Sub(light.position, point)) && Magnitude(Sub(light.position, point), sqrt) != 0.0
    ensures IsVector(v)
  {
    Normalize(Sub(light.position, point), sqrt)
  }

  /** The material colour as lit: the channel-wise product with the light's intensity. */
  function Effective(m: Material, light: Light): C.Color
  {
    C.Hadamard(m.color, light.intensity)
  }

  function Ambient(m: Material, light: Light): C.Color
  {
    C.Scale(Effective(m, light), m.ambient)
  }

  function Diffuse(m: Material, light: Light, lightDotNormal: real): C.Color
  {
    C.Scale(C.Scale(Effective(m, light), m.diffuse), lightDotNormal)
  }

  function Specular(m: Material, light: Light, factor: real): C.Color
  {
    C.Scale(C.Scale(light.intensity, m.specular), factor)
  }

  /**
   * `lighting`: ambient + diffuse + specular, where diffuse and specular are
   * black when the light is behind the surface, and specular is black when
   * the reflected light points away from the eye.
   */
  function Lighting(m: Material, light: Light, point: Tuple, eyev: Tuple, normalv: Tuple,
                    sqrt: real -> real, pow: (real, real) -> real): (c: C.Color)
    requires CanLight(light, point, normalv, sqrt)
  {
    var lightv := LightVector(light, point, sqrt);
    var lightDotNormal := Dot(lightv, normalv);
    if lightDotNormal < 0.0 then
      C.Add(C.Add(Ambient(m, light), C.Black()), C.Black())
    else
      var reflectDotEye := Dot(Reflect(Neg(lightv), normalv), eyev);
      var specular :=
        if reflectDotEye <= 0.0 then C.Black()
        else Specular(m, light, pow(reflectDotEye, m.shininess));
      C.Add(C.Add(Ambient(m, light), Diffuse(m, light, lightDotNormal)), specular)
  }

  // ---------------------------------------------------------------- lemmas

  /** With the light behind the surface only the ambient term is left, whatever the eye and the power. */
  lemma LightBehindSurface(m: Material, light: Light, point: Tuple, eyev: Tuple, normalv: Tuple,
                           sqrt: real -> real, pow: (real, real) -> real)
    requires CanLight(light, point, normalv, sqrt)
    requires Dot(LightVector(light, point, sqrt), normalv) < 0.0
    ensures Lighting(m, light, point, eyev, normalv, sqrt, pow) == Ambient(m, light)
  {
    C.AddSubChannelwise(Ambient(m, light), C.Black());
  }

  /**
   * With the light in front but its reflection pointing away from the eye,
   * the highlight is black: ambient plus diffuse, whatever the power.
   */
  lemma NoHighlight(m: Material, light: Light, point: Tuple, eyev: Tuple, normalv: Tuple,
                    sqrt: real -> real, pow: (real, real) -> real)
    requires CanLight(light, point, normalv, sqrt)
    requires Dot(LightVector(light, point, sqrt), normalv) >= 0.0
    requires Dot(Reflect(Neg(LightVector(light, point, sqrt)), normalv), eyev) <= 0.0
    ensures Lighting(m, light, point, eyev, normalv, sqrt, pow)
         == C.Add(Ambient(m, light), Diffuse(m, light, Dot(LightVector(light, point, sqrt), normalv)))
  {
    C.AddSubChannelwise(C.Add(Ambient(m, light), Diffuse(m, light, Dot(LightVector(light, point, sqrt), normalv))), C.Black());
  }

  /**
   * With unit light and normal vectors and the eye exactly on the reflected
   * light, the reflection meets the eye head on (cosine 1), so the highlight
   * is the light's intensity times the specular coefficient, whatever the
   * shininess, given only that the power maps 1 to 1.
   */
  lemma EyeOnReflectedRay(m: Material, light: Light, point: Tuple, normalv: Tuple,
                          sqrt: real -> real, pow: (real, real) -> real)
    requires CanLight(light, point, normalv, sqrt)
    requires IsVector(normalv) && Dot(normalv, normalv) == 1.0
    requires Dot(LightVector(light, point, sqrt), LightVector(light, point, sqrt)) == 1.0
    requires Dot(LightVector(light, point, sqrt), normalv) >= 0.0
    requires pow(1.0, m.shininess) == 1.0
    ensures var lv := LightVector(light, point, sqrt);
              Lighting(m, light, point, Reflect(Neg(lv), normalv), normalv, sqrt, pow)
              == C.Add(C.Add(Ambient(m, light), Diffuse(m, light, Dot(lv, normalv))),
                       C.Scale(light.intensity, m.specular))
  {
    var lv := LightVector(light, point, sqrt);
    var nl := Neg(lv);
    assert Dot(nl, nl) == Dot(lv, lv);
    ReflectAboutUnitNormal(nl, normalv);
    C.ScaleProperties(C.Scale(light.intensity, m.specular), 1.0);
  }

  /**
   * The default material lit head on by a white light, with the eye on the
   * normal: ambient 0.1, diffuse 0.9 and specular 0.9 add up to 1.9 in every
   * channel.
   */
  lemma DefaultFacingLight(light: Light, point: Tuple, normalv: Tuple,
                           sqrt: real -> real, pow: (real, real) -> real)
    requires CanLight(light, point, normalv, sqrt)
    requires IsVector(normalv) && Dot(normalv, normalv) == 1.0
    requires LightVector(light, point, sqrt) == normalv
    requires light.intensity == C.White() && pow(1.0, 200.0) == 1.0
    ensures Lighting(Default, light, point, normalv, normalv, sqrt, pow) == C.New(1.9, 1.9, 1.9)
  {
    ReflectHeadOn(normalv);
    EyeOnReflectedRay(Default, light, point, normalv, sqrt, pow);
    DefaultTermsUnderWhite(light);
  }

  /** A unit vector reflected head on comes straight back. */
  lemma ReflectHeadOn(n: Tuple)
    requires IsVector(n) && Dot(n, n) == 1.0
    ensures Reflect(Neg(n), n) == n
  {
    assert Dot(Neg(n), n) == -1.0;
  }

  /** The default material's three terms under a white light at full strength. */
  lemma DefaultTermsUnderWhite(light: Light)
    requires light.intensity == C.White()
    ensures C.Add(C.Add(Ambient(Default, light), Diffuse(Default, light, 1.0)), C.Scale(light.intensity, 0.9))
         == C.New(1.9, 1.9, 1.9)
  {
    assert Effective(Default, light) == C.White();
    assert Ambient(Default, light) == C.New(0.1, 0.1, 0.1);
    assert C.Scale(C.White(), 0.9) == C.New(0.9, 0.9, 0.9);
    assert Diffuse(Default, light, 1.0) == C.New(0.9, 0.9, 0.9);
    assert C.Add(C.New(0.1, 0.1, 0.1), C.New(0.9, 0.9, 0.9)) == C.New(1.0, 1.0, 1.0);
    assert C.Add(C.New(1.0, 1.0, 1.0), C.New(0.9, 0.9, 0.9)) == C.New(1.9, 1.9, 1.9);
  }

  /**
   * The highlight only ever adds light: with a non-negative intensity and
   * specular coefficient, and a power that is non-negative on positive bases,
   * every channel is at least the ambient plus diffuse value, whichever way
   * the reflection points.
   */
  lemma HighlightAddsLight(m: Material, light: Light, point: Tuple, eyev: Tuple, normalv: Tuple,
                           sqrt: real -> real, pow: (real, real) -> real)
    requires CanLight(light, point, normalv, sqrt)
    requires Dot(LightVector(light, point, sqrt), normalv) >= 0.0
    requires C.R(light.intensity) >= 0.0 && C.G(light.intensity) >= 0.0 && C.B(light.intensity) >= 0.0
    requires m.specular >= 0.0
    requires forall x :: x > 0.0 ==> pow(x, m.shininess) >= 0.0
    ensures var base := C.Add(Ambient(m, light), Diffuse(m, light, Dot(LightVector(light, point, sqrt), normalv)));
            var c := Lighting(m, light, point, eyev, normalv, sqrt, pow);
            C.R(c) >= C.R(base) && C.G(c) >= C.G(base) && C.B(c) >= C.B(base)
  {
    var lv := LightVector(light, point, sqrt);
    var base := C.Add(Ambient(m, light), Diffuse(m, light, Dot(lv, normalv)));
    var rde := Dot(Reflect(Neg(lv), normalv), eyev);
    if rde <= 0.0 {
      NoHighlight(m, light, point, eyev, normalv, sqrt, pow);
    } else {
      var f := pow(rde, m.shininess);
      var si := C.Scale(light.intensity, m.specular);
      C.ScaleProperties(light.intensity, m.specular);
      C.ScaleProperties(si, f);
      C.AddSubChannelwise(base, Specular(m, light, f));
    }
  }

  /** Each term is proportional to the light's intensity. */
  lemma TermsLinearInIntensity(m: Material, light: Light, k: real, lightDotNormal: real, factor: real)
    ensures Ambient(m, light.(intensity := C.Scale(light.intensity, k))) == C.Scale(Ambient(m, light), k)
    ensures Diffuse(m, light.(intensity := C.Scale(light.intensity, k)), lightDotNormal)
         == C.Scale(Diffuse(m, light, lightDotNormal), k)
    ensures Specular(m, light.(intensity := C.Scale(light.intensity, k)), factor)
         == C.Scale(Specular(m, light, factor), k)
  {
    var e := Effective(m, light);
    C.HadamardScale(m.color, light.intensity, k);
    C.ScaleCommutes(e, k, m.ambient);
    C.ScaleCommutes(C.Scale(e, m.diffuse), k, lightDotNormal);
    C.ScaleCommutes(e, k, m.diffuse);
    C.ScaleCommutes(C.Scale(light.intensity, m.specular), k, factor);
    C.ScaleCommutes(light.intensity, k, m.specular);
  }

  /**
   * Scaling the light's intensity scales the lit colour by the same factor:
   * every term is proportional to the intensity, and no branch depends on it.
   */
  lemma LightingLinearInIntensity(m: Material, light: Light, k: real, point: Tuple, eyev: Tuple, normalv: Tuple,
                                  sqrt: real -> real, pow: (real, real) -> real)
    requires CanLight(light, point, normalv, sqrt)
    ensures CanLight(light.(intensity := C.Scale(light.intensity, k)), point, normalv, sqrt)
    ensures Lighting(m, light.(intensity := C.Scale(light.intensity, k)), point, eyev, normalv, sqrt, pow)
         == C.Scale(Lighting(m, light, point, eyev, normalv, sqrt, pow), k)
  {
    var lv := LightVector(light, point, sqrt);
    var ldn := Dot(lv, normalv);
    var factor := if ldn >= 0.0 then pow(Dot(Reflect(Neg(lv), normalv), eyev), m.shininess) else 0.0;
    TermsLinearInIntensity(m, light, k, ldn, factor);
    var a, d, sp := Ambient(m, light), Diffuse(m, light, ldn), Specular(m, light, factor);
    C.ScaleDistributes(a, d, k);
    C.ScaleDistributes(C.Add(a, d), sp, k);
    C.ScaleDistributes(C.Add(a, d), C.Black(), k);
    C.ScaleDistributes(C.Add(a, C.Black()), C.Black(), k);
    C.ScaleDistributes(a, C.Black(), k);
  }

  /** Each term is non-negative channel by channel when its inputs are. */
  lemma TermsNonNegative(m: Material, light: Light, lightDotNormal: real, factor: real)
    requires C.R(m.color) >= 0.0 && C.G(m.color) >= 0.0 && C.B(m.color) >= 0.0
    requires C.R(light.intensity) >= 0.0 && C.G(light.intensity) >= 0.0 && C.B(light.intensity) >= 0.0
    requires m.ambient >= 0.0 && m.diffuse >= 0.0 && m.specular >= 0.0
    requires lightDotNormal >= 0.0 && factor >= 0.0
    ensures C.R(Ambient(m, light)) >= 0.0 && C.G(Ambient(m, light)) >= 0.0 && C.B(Ambient(m, light)) >= 0.0
    ensures var d := Diffuse(m, light, lightDotNormal); C.R(d) >= 0.0 && C.G(d) >= 0.0 && C.B(d) >= 0.0
    ensures var s := Specular(m, light, factor); C.R(s) >= 0.0 && C.G(s) >= 0.0 && C.B(s) >= 0.0
  {
    var e := Effective(m, light);
    assert C.R(e) >= 0.0 && C.G(e) >= 0.0 && C.B(e) >= 0.0;
    var ed := C.Scale(e, m.diffuse);
    assert C.R(ed) >= 0.0 && C.G(ed) >= 0.0 && C.B(ed) >= 0.0;
    var si := C.Scale(light.intensity, m.specular);
    assert C.R(si) >= 0.0 && C.G(si) >= 0.0 && C.B(si) >= 0.0;
  }

  /**
   * Lighting adds light and never removes it: with non-negative colours and
   * coefficients, and a power that is non-negative on positive bases, every
   * channel of the result is non-negative.
   */
  lemma LightingNonNegative(m: Material, light: Light, point: Tuple, eyev: Tuple, normalv: Tuple,
                            sqrt: real -> real, pow: (real, real) -> real)
    requires CanLight(light, point, normalv, sqrt)
    requires C.R(m.color) >= 0.0 && C.G(m.color) >= 0.0 && C.B(m.color) >= 0.0
    requires C.R(light.intensity) >= 0.0 && C.G(light.intensity) >= 0.0 && C.B(light.intensity) >= 0.0
    requires m.ambient >= 0.0 && m.diffuse >= 0.0 && m.specular >= 0.0
    requires forall x :: x > 0.0 ==> pow(x, m.shininess) >= 0.0
    ensures var c := Lighting(m, light, point, eyev, normalv, sqrt, pow);
            C.R(c) >= 0.0 && C.G(c) >= 0.0 && C.B(c) >= 0.0
  {
    var lv := LightVector(light, point, sqrt);
    var ldn := Dot(lv, normalv);
    if ldn < 0.0 {
      TermsNonNegative(m, light, 0.0, 0.0);
    } else {
      var rde := Dot(Reflect(Neg(lv), normalv), eyev);
      var factor := if rde <= 0.0 then 0.0 else pow(rde, m.shininess);
      TermsNonNegative(m, light, ldn, factor);
    }
  }

  /**
   * Under a white light, a material with full ambient and the light behind
   * the surface shows exactly its own colour.
   */
  lemma FullAmbientShowsColour(m: Material, light: Light, point: Tuple, eyev: Tuple, normalv: Tuple,
                               sqrt: real -> real, pow: (real, real) -> real)
    requires CanLight(light, point, normalv, sqrt)
    requires Dot(LightVector(light, point, sqrt), normalv) < 0.0
    requires m.ambient == 1.0 && light.intensity == C.White() && C.WellFormed(m.color)
    ensures Lighting(m, light, point, eyev, normalv, sqrt, pow) == m.color
  {
    LightBehindSurface(m, light, point, eyev, normalv, sqrt, pow);
    C.HadamardProperties(m.color, C.White());
    C.ScaleProperties(Effective(m, light), 1.0);
  }
}
